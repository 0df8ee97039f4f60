/**
 Schema migration: create what is missing, then record it. The class runs it once;
 the step machine below lets any number of processes run it at the same time and
 crash between any two SQL statements.
 */
module Migration {
  import opened Common

  const MIGRATION := "migration"
  const USER := "user"
  const GROUP := "group"
  const USER_BACKUP := "user_backup"
  const REQUIRED: seq<string> := [USER, GROUP, USER_BACKUP]

  /** A row of the migration table; the version column is an unsigned 32-bit integer. */
  datatype Row = Row(tableName: string, version: bv32)

  datatype Db = Db(tables: set<string>, rows: seq<Row>)

  datatype Error =
    | UnknownTable(name: string)
    | MissingMigration(name: string, version: int)
    | DuplicateKey(name: string)

  /** The column is read into a signed 32-bit integer. */
  function Signed(v: bv32): int {
    if v < 0x8000_0000 then v as int else v as int - 0x1_0000_0000
  }

  /** factoryTable and getLastSchemaVersion: every known table is at version 1. */
  function LastSchemaVersion(name: string): Option<int> {
    if name in REQUIRED then Some(1) else None
  }

  function RowError(r: Row): Option<Error> {
    var last := LastSchemaVersion(r.tableName);
    if last == None then Some(UnknownTable(r.tableName))
    else if Signed(r.version) < last.value then Some(MissingMigration(r.tableName, Signed(r.version)))
    else None
  }

  /** A row of a required table that is not outdated; a version from 2^31 on reads as negative. */
  predicate UpToDate(r: Row) {
    r.tableName in {"user", "group", "user_backup"} && 1 <= r.version < 0x8000_0000
  }

  /** What is wrong with a row. */
  predicate IsReported(r: Row, e: Error) {
    && !UpToDate(r)
    && if r.tableName in {"user", "group", "user_backup"}
       then e == MissingMigration(r.tableName, if r.version == 0 then 0 else r.version as int - 0x1_0000_0000)
       else e == UnknownTable(r.tableName)
  }

  lemma RowErrorIsReported(r: Row)
    ensures RowError(r) == None <==> UpToDate(r)
    ensures RowError(r).Some? ==> IsReported(r, RowError(r).value)
  {
    assert REQUIRED[0] == "user" && REQUIRED[1] == "group" && REQUIRED[2] == "user_backup";
  }

  predicate Recorded(rows: seq<Row>, name: string) {
    exists i :: 0 <= i < |rows| && rows[i].tableName == name
  }

  /** The names of all rows, or the error of the first bad one. */
  function Scan(rows: seq<Row>): (r: Result<set<string>, Error>)
    ensures r.Ok? <==> forall i :: 0 <= i < |rows| ==> RowError(rows[i]) == None
  {
    if rows == [] then Ok({})
    else
      var before := Scan(rows[..|rows| - 1]);
      var r := rows[|rows| - 1];
      if before.Err? then before
      else if RowError(r).Some? then Err(RowError(r).value)
      else Ok(before.value + {r.tableName})
  }

  /** A scan that succeeds collects exactly the recorded names. */
  lemma {:induction false} ScanNames(rows: seq<Row>)
    requires Scan(rows).Ok?
    ensures forall n :: n in Scan(rows).value <==> Recorded(rows, n)
  {
    if rows != [] {
      var before := rows[..|rows| - 1];
      ScanNames(before);
      assert rows == before + [rows[|rows| - 1]];
      forall n { RecordedPush(before, rows[|rows| - 1], n); }
    }
  }

  /** Row `i` is the first bad one, and `e` is what is wrong with it. */
  predicate FirstBad(rows: seq<Row>, i: nat, e: Error) {
    i < |rows| && RowError(rows[i]) == Some(e) && forall j :: 0 <= j < i ==> RowError(rows[j]) == None
  }

  /** A scan that fails reports the first bad row. */
  lemma {:induction false} ScanReportsFirstBad(rows: seq<Row>) returns (i: nat)
    requires Scan(rows).Err?
    ensures FirstBad(rows, i, Scan(rows).error)
  {
    var n := |rows| - 1;
    if Scan(rows[..n]).Err? {
      i := ScanReportsFirstBad(rows[..n]);
    } else {
      i := n;
    }
  }

  function RowFor(name: string): Row {
    Row(name, 1)
  }

  /** The database after the required tables from `j` on have been brought in. */
  function Filled(db: Db, seen: set<string>, j: nat): Db
    requires j <= |REQUIRED|
    decreases |REQUIRED| - j
  {
    if j == |REQUIRED| then db
    else if REQUIRED[j] in seen then Filled(db, seen, j + 1)
    else Filled(Db(db.tables + {REQUIRED[j]}, db.rows + [RowFor(REQUIRED[j])]), seen, j + 1)
  }

  function Opened(db: Db): Db {
    db.(tables := db.tables + {MIGRATION})
  }

  /** One uninterrupted migration. */
  function Migrated(db: Db): (Result<(), Error>, Db) {
    var scan := Scan(db.rows);
    if scan.Err? then (Err(scan.error), Opened(db))
    else (Ok(()), Filled(Opened(db), scan.value, 0))
  }

  class VersionsManager {
    var db: Db

    constructor (db: Db)
      ensures this.db == db
    {
      this.db := db;
    }

    method CreateTableIfNotExist(name: string)
      modifies this
      ensures db == old(db).(tables := old(db).tables + {name})
    {
      if name !in db.tables {
        db := db.(tables := db.tables + {name});
      }
    }

    /** The migration table has a unique key on the table name. */
    method Save(row: Row) returns (r: Result<(), Error>)
      modifies this
      ensures r.Err? <==> Recorded(old(db).rows, row.tableName)
      ensures db == if r.Ok? then old(db).(rows := old(db).rows + [row]) else old(db)
    {
      if Recorded(db.rows, row.tableName) {
        return Err(DuplicateKey(row.tableName));
      }
      db := db.(rows := db.rows + [row]);
      r := Ok(());
    }

    /** The first loop: collect the recorded tables, stop at the first bad row. */
    method CheckRows(migrations: seq<Row>) returns (r: Result<set<string>, Error>)
      ensures r == Scan(migrations)
    {
      var existingTables: set<string> := {};
      for i := 0 to |migrations|
        invariant Scan(migrations[..i]) == Ok(existingTables)
      {
        var migration := migrations[i];
        var known := LastSchemaVersion(migration.tableName);
        assert migrations[..i + 1][..i] == migrations[..i];
        if known == None {
          ScanStops(migrations, i + 1);
          return Err(UnknownTable(migration.tableName));
        }
        if Signed(migration.version) < known.value {
          ScanStops(migrations, i + 1);
          return Err(MissingMigration(migration.tableName, Signed(migration.version)));
        }
        existingTables := existingTables + {migration.tableName};
      }
      assert migrations[..|migrations|] == migrations;
      r := Ok(existingTables);
    }

    /** The second loop: create and record every required table that has no row. */
    method AddMissing(existingTables: set<string>) returns (r: Result<(), Error>)
      requires forall n :: Recorded(db.rows, n) ==> n in existingTables
      modifies this
      ensures r == Ok(()) && db == Filled(old(db), existingTables, 0)
    {
      for j := 0 to |REQUIRED|
        invariant Filled(db, existingTables, j) == Filled(old(db), existingTables, 0)
        invariant forall n :: Recorded(db.rows, n) ==> n in existingTables || n in REQUIRED[..j]
      {
        var tableName := REQUIRED[j];
        RequiredDistinct(j);
        if tableName !in existingTables {
          ghost var before := db.rows;
          CreateTableIfNotExist(tableName);
          r := Save(RowFor(tableName));
          if r.Err? {
            return;
          }
          forall n | Recorded(db.rows, n) ensures Recorded(before, n) || n == tableName {
            var i :| 0 <= i < |db.rows| && db.rows[i].tableName == n;
            assert i < |before| ==> before[i].tableName == n;
          }
        }
      }
      r := Ok(());
    }

    method Migrate() returns (r: Result<(), Error>)
      modifies this
      ensures r.Ok? <==> forall i :: 0 <= i < |old(db).rows| ==> UpToDate(old(db).rows[i])
      ensures r.Err? ==>
                && exists i: nat :: i < |old(db).rows| && IsReported(old(db).rows[i], r.error)
                                    && forall j :: 0 <= j < i ==> UpToDate(old(db).rows[j])
      ensures r.Err? ==> db.rows == old(db).rows && db.tables == old(db).tables + {"migration"}
      ensures r.Ok? ==> AddsMissing(Db(old(db).tables + {"migration"}, old(db).rows), db, 0)
      ensures (r, db) == Migrated(old(db))
    {
      MigratedExactly(db);
      forall i | 0 <= i < |db.rows| { RowErrorIsReported(db.rows[i]); }
      CreateTableIfNotExist(MIGRATION);
      var scanned := CheckRows(db.rows);
      if scanned.Err? {
        return Err(scanned.error);
      }
      assert db == Opened(old(db));
      ScanNames(db.rows);
      r := AddMissing(scanned.value);
    }
  }

  lemma RequiredDistinct(j: nat)
    requires j < |REQUIRED|
    ensures REQUIRED[j] !in REQUIRED[..j]
  {
    assert |USER| == 4 && |GROUP| == 5 && |USER_BACKUP| == 11;
  }

  lemma {:induction false} ScanStops(rows: seq<Row>, n: nat)
    requires n <= |rows| && Scan(rows[..n]).Err?
    ensures Scan(rows) == Scan(rows[..n])
    decreases |rows|
  {
    if n == |rows| {
      assert rows[..n] == rows;
    } else {
      assert rows[..|rows| - 1][..n] == rows[..n];
      ScanStops(rows[..|rows| - 1], n);
    }
  }

  /**
   For every database: an unknown or outdated row stops the migration before any
   required table is created; otherwise it succeeds, keeps every row and table,
   and records exactly the required tables that had no row.
   */
  lemma MigratedExactly(db: Db)
    ensures var (r, db') := Migrated(db);
      && (r.Err? <==> exists i :: 0 <= i < |db.rows| && RowError(db.rows[i]).Some?)
      && (r.Err? ==> db' == Opened(db) && exists i: nat :: FirstBad(db.rows, i, r.error))
      && (r.Ok? ==> AddsMissing(Opened(db), db', 0))
  {
    var scan := Scan(db.rows);
    if scan.Ok? {
      ScanNames(db.rows);
      FilledAdds(Opened(db), scan.value, 0);
    } else {
      var i := ScanReportsFirstBad(db.rows);
    }
  }

  /** `after` is `before` with exactly the unrecorded ones of the required tables from `j` on brought in. */
  ghost predicate AddsMissing(before: Db, after: Db, j: nat)
    requires j <= |REQUIRED|
  {
    && before.rows <= after.rows
    && after.tables == before.tables + (set n | n in REQUIRED[j..] && !Recorded(before.rows, n))
    && (forall n :: n in REQUIRED[j..] ==> Recorded(after.rows, n))
    && NewRows(before.rows, after.rows, j)
  }

  /** The rows behind `before` are of distinct required tables from `j` on that had none. */
  predicate NewRows(before: seq<Row>, after: seq<Row>, j: nat)
    requires j <= |REQUIRED|
  {
    && (forall i :: |before| <= i < |after| ==>
          after[i].version == 1 && after[i].tableName in REQUIRED[j..] && !Recorded(before, after[i].tableName))
    && (forall i, k :: |before| <= i < k < |after| ==> after[i].tableName != after[k].tableName)
  }

  lemma RecordedStays(rows: seq<Row>, more: seq<Row>, name: string)
    requires rows <= more && Recorded(rows, name)
    ensures Recorded(more, name)
  {
    var i :| 0 <= i < |rows| && rows[i].tableName == name;
    assert more[i] == rows[i];
  }

  lemma RecordedPush(rows: seq<Row>, r: Row, name: string)
    ensures Recorded(rows + [r], name) <==> Recorded(rows, name) || r.tableName == name
  {
    var more := rows + [r];
    assert more[|rows|] == r;
    if Recorded(rows, name) { RecordedStays(rows, more, name); }
    if i :| 0 <= i < |more| && more[i].tableName == name {
      assert i < |rows| ==> rows[i] == more[i];
    }
  }

  lemma NewRowsKept(before: seq<Row>, after: seq<Row>, j: nat)
    requires j < |REQUIRED| && NewRows(before, after, j + 1)
    ensures NewRows(before, after, j)
  {
    assert REQUIRED[j..] == [REQUIRED[j]] + REQUIRED[j + 1..];
  }

  lemma NewRowsOneMore(before: seq<Row>, next: seq<Row>, after: seq<Row>, j: nat)
    requires j < |REQUIRED| && NewRows(next, after, j + 1) && next <= after
    requires next == before + [RowFor(REQUIRED[j])] && !Recorded(before, REQUIRED[j])
    ensures NewRows(before, after, j)
  {
    var name := REQUIRED[j];
    assert REQUIRED[j..] == [name] + REQUIRED[j + 1..];
    assert after[|before|] == next[|before|] == RowFor(name);
    forall n ensures Recorded(next, n) <==> Recorded(before, n) || n == name {
      RecordedPush(before, RowFor(name), n);
    }
    forall i | |next| <= i < |after| ensures after[i].tableName != name && !Recorded(before, after[i].tableName) {
      assert !Recorded(next, after[i].tableName);
    }
  }

  /** The first missing table, then the rest. */
  lemma AddsOneMore(db: Db, next: Db, after: Db, j: nat)
    requires j < |REQUIRED| && AddsMissing(next, after, j + 1) && !Recorded(db.rows, REQUIRED[j])
    requires next == Db(db.tables + {REQUIRED[j]}, db.rows + [RowFor(REQUIRED[j])])
    ensures AddsMissing(db, after, j)
  {
    var name := REQUIRED[j];
    assert REQUIRED[j..] == [name] + REQUIRED[j + 1..];
    LaterRequiredDiffer(j);
    forall n ensures Recorded(next.rows, n) <==> Recorded(db.rows, n) || n == name {
      RecordedPush(db.rows, RowFor(name), n);
    }
    RecordedStays(next.rows, after.rows, name);
    NewRowsOneMore(db.rows, next.rows, after.rows, j);
  }

  lemma AddsNoMore(db: Db, after: Db, j: nat)
    requires j < |REQUIRED| && AddsMissing(db, after, j + 1) && Recorded(db.rows, REQUIRED[j])
    ensures AddsMissing(db, after, j)
  {
    assert REQUIRED[j..] == [REQUIRED[j]] + REQUIRED[j + 1..];
    RecordedStays(db.rows, after.rows, REQUIRED[j]);
    NewRowsKept(db.rows, after.rows, j);
  }

  lemma {:induction false} FilledAdds(db: Db, seen: set<string>, j: nat)
    requires j <= |REQUIRED|
    requires forall n :: n in REQUIRED[j..] ==> (n in seen <==> Recorded(db.rows, n))
    ensures AddsMissing(db, Filled(db, seen, j), j)
    decreases |REQUIRED| - j
  {
    if j < |REQUIRED| {
      var name := REQUIRED[j];
      assert REQUIRED[j..] == [name] + REQUIRED[j + 1..];
      LaterRequiredDiffer(j);
      var next := if name in seen then db else Db(db.tables + {name}, db.rows + [RowFor(name)]);
      forall n | n in REQUIRED[j + 1..] ensures Recorded(next.rows, n) <==> Recorded(db.rows, n) {
        RecordedPush(db.rows, RowFor(name), n);
      }
      FilledAdds(next, seen, j + 1);
      if name in seen {
        AddsNoMore(db, Filled(db, seen, j), j);
      } else {
        AddsOneMore(db, next, Filled(db, seen, j), j);
      }
    }
  }

  lemma LaterRequiredDiffer(j: nat)
    requires j < |REQUIRED|
    ensures REQUIRED[j] !in REQUIRED[j + 1..]
  {
    assert |USER| == 4 && |GROUP| == 5 && |USER_BACKUP| == 11;
  }
}
