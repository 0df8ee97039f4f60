/**
 Any number of processes migrate the same database at once, each SQL statement
 being one step, and any of them may die between two statements.
 */
module MigrationRuns {
  import opened Common
  import opened Migration

  type Pid = nat

  datatype Pc =
    | Opening                              // create the migration table
    | Reading                              // read and check its rows
    | Next(seen: set<string>, j: nat)      // look at required table j
    | Saving(seen: set<string>, j: nat)    // table j exists; write its row
    | Finished
    | Aborted(error: Error)

  datatype State = State(db: Db, procs: map<Pid, Pc>)

  datatype Step = Start(p: Pid) | Go(p: Pid) | Crash(p: Pid)

  const EMPTY := Db({}, [])
  const INIT := State(EMPTY, map[])

  predicate Wf(pc: Pc) {
    (pc.Next? ==> pc.j <= |REQUIRED|) && (pc.Saving? ==> pc.j < |REQUIRED|)
  }

  /** One statement of `migrate` on the database. */
  function Statement(db: Db, pc: Pc): (Db, Pc)
    requires Wf(pc)
  {
    match pc
    case Opening => (Opened(db), Reading)
    case Reading =>
      var scan := Scan(db.rows);
      (db, if scan.Err? then Aborted(scan.error) else Next(scan.value, 0))
    case Next(seen, j) =>
      if j == |REQUIRED| then (db, Finished)
      else if REQUIRED[j] in seen then (db, Next(seen, j + 1))
      else (db.(tables := db.tables + {REQUIRED[j]}), Saving(seen, j))
    case Saving(seen, j) =>
      if Recorded(db.rows, REQUIRED[j]) then (db, Aborted(DuplicateKey(REQUIRED[j])))
      else (db.(rows := db.rows + [RowFor(REQUIRED[j])]), Next(seen, j + 1))
    case Finished => (db, pc)
    case Aborted(_) => (db, pc)
  }

  predicate Enabled(s: State, step: Step) {
    match step
    case Start(p) => p !in s.procs
    case Go(p) => p in s.procs && Wf(s.procs[p])
    case Crash(p) => p in s.procs
  }

  function Apply(s: State, step: Step): State
    requires Enabled(s, step)
  {
    match step
    case Start(p) => s.(procs := s.procs[p := Opening])
    case Go(p) =>
      var (db, pc) := Statement(s.db, s.procs[p]);
      State(db, s.procs[p := pc])
    case Crash(p) => s.(procs := s.procs - {p})
  }

  function After(steps: seq<Step>): Option<State> {
    if steps == [] then Some(INIT)
    else
      var before := After(steps[..|steps| - 1]);
      if before.Some? && Enabled(before.value, steps[|steps| - 1])
      then Some(Apply(before.value, steps[|steps| - 1])) else None
  }

  // ---- one process alone does what `Migrated` says --------------------------

  function Measure(pc: Pc): nat
    requires Wf(pc)
  {
    match pc
    case Opening => 2 * |REQUIRED| + 3
    case Reading => 2 * |REQUIRED| + 2
    case Next(_, j) => 2 * (|REQUIRED| - j) + 1
    case Saving(_, j) => 2 * (|REQUIRED| - j)
    case _ => 0
  }

  /** Run the statements from `pc` on with nobody else around. */
  function Alone(db: Db, pc: Pc): (r: (Db, Pc))
    requires Wf(pc)
    decreases Measure(pc)
  {
    if Measure(pc) == 0 then (db, pc)
    else var (db', pc') := Statement(db, pc); Alone(db', pc')
  }

  lemma {:induction false} AloneFills(db: Db, seen: set<string>, j: nat)
    requires j <= |REQUIRED| && forall n :: Recorded(db.rows, n) ==> n in seen || n in REQUIRED[..j]
    ensures Alone(db, Next(seen, j)) == (Filled(db, seen, j), Finished)
    decreases |REQUIRED| - j
  {
    if j < |REQUIRED| {
      RequiredDistinct(j);
      assert REQUIRED[..j + 1] == REQUIRED[..j] + [REQUIRED[j]];
      if REQUIRED[j] in seen {
        AloneFills(db, seen, j + 1);
      } else {
        var created := db.(tables := db.tables + {REQUIRED[j]});
        var saved := created.(rows := db.rows + [RowFor(REQUIRED[j])]);
        forall n | Recorded(saved.rows, n) ensures n in seen || n in REQUIRED[..j + 1] {
          RecordedPush(db.rows, RowFor(REQUIRED[j]), n);
        }
        AloneFills(saved, seen, j + 1);
        assert Statement(db, Next(seen, j)) == (created, Saving(seen, j));
        assert Statement(created, Saving(seen, j)) == (saved, Next(seen, j + 1));
      }
    }
  }

  /** The statements of an undisturbed process add up to `Migrated`, on every database. */
  lemma AloneIsMigrated(db: Db)
    ensures Alone(db, Opening).0 == Migrated(db).1
    ensures Alone(db, Opening).1 == if Migrated(db).0.Ok? then Finished else Aborted(Migrated(db).0.error)
  {
    var scan := Scan(db.rows);
    if scan.Ok? {
      ScanNames(db.rows);
      AloneFills(Opened(db), scan.value, 0);
    }
  }

  // ---- the database over all runs -------------------------------------------

  function RowsFor(names: seq<string>): seq<Row> {
    seq(|names|, i requires 0 <= i < |names| => RowFor(names[i]))
  }

  function SetOf(names: seq<string>): set<string> {
    set n | n in names
  }

  /** What an uninterrupted migration makes of an empty database. */
  const FINAL := Db({MIGRATION} + SetOf(REQUIRED), RowsFor(REQUIRED))

  predicate DbInv(db: Db) {
    && |db.rows| <= |REQUIRED|
    && db.rows == RowsFor(REQUIRED[..|db.rows|])
    && SetOf(REQUIRED[..|db.rows|]) <= db.tables <= FINAL.tables
  }

  /** A process at table `j` has all earlier ones recorded, and what it read is still there. */
  predicate PcInv(db: Db, pc: Pc) {
    match pc
    case Opening => true
    case Reading => MIGRATION in db.tables
    case Next(seen, j) => MIGRATION in db.tables && j <= |db.rows| && SeenPrefix(db, seen)
    case Saving(seen, j) => MIGRATION in db.tables && j <= |db.rows| && j < |REQUIRED|
                            && REQUIRED[j] in db.tables && SeenPrefix(db, seen)
    case Finished => db == FINAL
    case Aborted(e) => e.DuplicateKey?
  }

  predicate SeenPrefix(db: Db, seen: set<string>) {
    exists m :: 0 <= m <= |db.rows| && m <= |REQUIRED| && seen == SetOf(REQUIRED[..m])
  }

  ghost predicate Inv(s: State) {
    DbInv(s.db) && forall p :: p in s.procs ==> PcInv(s.db, s.procs[p])
  }

  predicate Grows(db: Db, db': Db) {
    db.tables <= db'.tables && db.rows <= db'.rows
  }

  lemma RequiredIndex(i: nat, j: nat)
    requires i < |REQUIRED| && j < |REQUIRED| && REQUIRED[i] == REQUIRED[j]
    ensures i == j
  {
    assert |USER| == 4 && |GROUP| == 5 && |USER_BACKUP| == 11;
  }

  lemma RecordedIsIndex(db: Db, j: nat)
    requires DbInv(db) && j < |REQUIRED|
    ensures Recorded(db.rows, REQUIRED[j]) <==> j < |db.rows|
  {
    assert j < |db.rows| ==> db.rows[j].tableName == REQUIRED[j];
    if Recorded(db.rows, REQUIRED[j]) {
      var i :| 0 <= i < |db.rows| && db.rows[i].tableName == REQUIRED[j];
      RequiredIndex(i, j);
    }
  }

  lemma ScanPrefix(db: Db)
    requires DbInv(db)
    ensures Scan(db.rows) == Ok(SetOf(REQUIRED[..|db.rows|]))
  {
    var k := |db.rows|;
    forall i | 0 <= i < k ensures RowError(db.rows[i]) == None {
      assert REQUIRED[..k][i] in REQUIRED;
    }
    assert Scan(db.rows).Ok?;
    ScanNames(db.rows);
    var seen := Scan(db.rows).value;
    forall n ensures n in seen <==> n in SetOf(REQUIRED[..k]) {
      if n in seen {
        var i :| 0 <= i < |db.rows| && db.rows[i].tableName == n;
        assert REQUIRED[..k][i] == n;
      }
      if n in SetOf(REQUIRED[..k]) {
        var i :| 0 <= i < k && REQUIRED[..k][i] == n;
        assert db.rows[i].tableName == n;
      }
    }
    assert seen == SetOf(REQUIRED[..k]);
  }

  lemma FullIsFinal(db: Db)
    requires DbInv(db) && |db.rows| == |REQUIRED| && MIGRATION in db.tables
    ensures db == FINAL
  {
    assert REQUIRED[..|REQUIRED|] == REQUIRED;
    assert db.tables == FINAL.tables;
  }

  lemma SaveKeeps(db: Db, seen: set<string>, j: nat)
    requires DbInv(db) && PcInv(db, Saving(seen, j)) && !Recorded(db.rows, REQUIRED[j])
    ensures var (db', pc') := Statement(db, Saving(seen, j)); DbInv(db') && PcInv(db', pc')
  {
    RecordedIsIndex(db, j);
    assert |db.rows| == j;
    var db' := Statement(db, Saving(seen, j)).0;
    assert REQUIRED[..j + 1] == REQUIRED[..j] + [REQUIRED[j]];
    assert db'.rows == RowsFor(REQUIRED[..j + 1]);
    assert SetOf(REQUIRED[..j + 1]) == SetOf(REQUIRED[..j]) + {REQUIRED[j]};
    var m :| 0 <= m <= |db.rows| && m <= |REQUIRED| && seen == SetOf(REQUIRED[..m]);
    assert SeenPrefix(db', seen);
  }

  lemma NextKeeps(db: Db, seen: set<string>, j: nat)
    requires DbInv(db) && PcInv(db, Next(seen, j)) && j <= |REQUIRED|
    ensures var (db', pc') := Statement(db, Next(seen, j)); DbInv(db') && PcInv(db', pc')
  {
    if j == |REQUIRED| {
      FullIsFinal(db);
    } else {
      assert REQUIRED[j] in REQUIRED;
      var m :| 0 <= m <= |db.rows| && m <= |REQUIRED| && seen == SetOf(REQUIRED[..m]);
      if REQUIRED[j] in seen {
        var i :| 0 <= i < m && REQUIRED[..m][i] == REQUIRED[j];
        RequiredIndex(i, j);
      } else {
        assert SeenPrefix(Statement(db, Next(seen, j)).0, seen);
      }
    }
  }

  lemma StatementKeeps(db: Db, pc: Pc)
    requires DbInv(db) && Wf(pc) && PcInv(db, pc)
    ensures var (db', pc') := Statement(db, pc); DbInv(db') && PcInv(db', pc') && Grows(db, db')
  {
    match pc
    case Opening =>
    case Reading =>
      ScanPrefix(db);
      assert SeenPrefix(db, SetOf(REQUIRED[..|db.rows|]));
    case Next(seen, j) => NextKeeps(db, seen, j);
    case Saving(seen, j) => if !Recorded(db.rows, REQUIRED[j]) { SaveKeeps(db, seen, j); }
    case Finished =>
    case Aborted(_) =>
  }

  /** What one process relies on survives whatever the others add. */
  lemma PcStays(db: Db, db': Db, pc: Pc)
    requires DbInv(db) && DbInv(db') && Grows(db, db') && PcInv(db, pc)
    ensures PcInv(db', pc)
  {
    match pc
    case Next(seen, j) =>
      var m :| 0 <= m <= |db.rows| && m <= |REQUIRED| && seen == SetOf(REQUIRED[..m]);
      assert SeenPrefix(db', seen);
    case Saving(seen, j) =>
      var m :| 0 <= m <= |db.rows| && m <= |REQUIRED| && seen == SetOf(REQUIRED[..m]);
      assert SeenPrefix(db', seen);
    case Finished => FullIsFinal(db');
    case _ =>
  }

  lemma InvStep(s: State, step: Step)
    requires Inv(s) && Enabled(s, step)
    ensures Inv(Apply(s, step)) && Grows(s.db, Apply(s, step).db)
  {
    if step.Go? {
      StatementKeeps(s.db, s.procs[step.p]);
      var s' := Apply(s, step);
      forall p | p in s'.procs ensures PcInv(s'.db, s'.procs[p]) {
        if p != step.p { PcStays(s.db, s'.db, s.procs[p]); }
      }
    }
  }

  lemma {:induction false} InvAfter(steps: seq<Step>)
    requires After(steps).Some?
    ensures Inv(After(steps).value)
  {
    if steps == [] {
      assert RowsFor(REQUIRED[..0]) == [] && SetOf(REQUIRED[..0]) == {};
    } else {
      var before := steps[..|steps| - 1];
      InvAfter(before);
      InvStep(After(before).value, steps[|steps| - 1]);
    }
  }

  lemma EmptyMigrates()
    ensures Migrated(EMPTY) == (Ok(()), FINAL)
  {
    assert DbInv(EMPTY) by { assert RowsFor(REQUIRED[..0]) == [] && SetOf(REQUIRED[..0]) == {}; }
    Recovers(EMPTY);
  }

  /** From every database in the invariant one undisturbed migration reaches FINAL. */
  lemma Recovers(db: Db)
    requires DbInv(db)
    ensures Migrated(db) == (Ok(()), FINAL)
  {
    ScanPrefix(db);
    AloneIsMigrated(db);
    AloneKeeps(db, Opening);
  }

  lemma {:induction false} AloneKeeps(db: Db, pc: Pc)
    requires DbInv(db) && Wf(pc) && PcInv(db, pc)
    ensures var (db', pc') := Alone(db, pc); DbInv(db') && PcInv(db', pc')
    decreases Measure(pc)
  {
    if Measure(pc) != 0 {
      StatementKeeps(db, pc);
      var (db', pc') := Statement(db, pc);
      AloneKeeps(db', pc');
    }
  }

  /**
   Crash safety. After any interleaving of any number of processes, each cut off
   anywhere, one undisturbed migration succeeds and leaves exactly what a first
   migration of an empty database leaves; migrating again changes nothing.
   */
  lemma CrashSafe(steps: seq<Step>)
    requires After(steps).Some?
    ensures Migrated(After(steps).value.db) == Migrated(EMPTY) == (Ok(()), FINAL)
    ensures Migrated(FINAL) == (Ok(()), FINAL)
  {
    InvAfter(steps);
    Recovers(After(steps).value.db);
    EmptyMigrates();
    assert REQUIRED[..|REQUIRED|] == REQUIRED;
    Recovers(FINAL);
  }

  /**
   With others at work a process that ends well leaves the database complete, and
   the only thing that can stop one is another process writing its row first.
   */
  lemma ConcurrentOutcome(steps: seq<Step>, p: Pid)
    requires After(steps).Some? && p in After(steps).value.procs
    ensures var s := After(steps).value;
      && (s.procs[p].Finished? ==> s.db == FINAL)
      && (s.procs[p].Aborted? ==> s.procs[p].error.DuplicateKey?)
      && (forall i, j :: 0 <= i < j < |s.db.rows| ==> s.db.rows[i].tableName != s.db.rows[j].tableName)
  {
    InvAfter(steps);
    var s := After(steps).value;
    assert PcInv(s.db, s.procs[p]);
    forall i, j | 0 <= i < j < |s.db.rows| ensures s.db.rows[i].tableName != s.db.rows[j].tableName {
      if REQUIRED[i] == REQUIRED[j] { RequiredIndex(i, j); }
    }
  }
}
