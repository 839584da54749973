/** The schema-migration engine of internal/database/migration/migration.go:
    an ordered list of migration units, a record table that says which units
    have been applied, and the two runs `Migrate` and `Rollback(n)`.

    The database is modelled by its table names, the record table and a
    monotonic stamp counter that stands in for the `applied_at` timestamp.
    Each unit runs in its own transaction: the run works on a snapshot and
    writes it back only at commit, so a failed transaction leaves the store
    as it was. Which store operations fail (creating the record table,
    listing records, begin, DDL, record insert/delete, commit) is given by a
    `Faults` value, since it depends on the database server. */
module Migration {
  import opened Wrappers

  /** The tables of the schema, by name. */
  type Schema = set<string>

  /** The transaction handle a unit receives: the schema as the transaction
      sees it, and the tables whose DDL the database refuses. */
  datatype Tx = Tx(tables: Schema, refused: set<string>)

  /** gorm's `tx.AutoMigrate(&Model{})`, creating the model's table. */
  function AutoMigrate(tx: Tx, table: string): (r: Result<Schema, string>)
    ensures r.Failure? <==> table in tx.refused
    ensures r.Success? ==> table in r.value && r.value - {table} == tx.tables - {table}
  {
    if table in tx.refused then Failure("cannot migrate table " + table)
    else Success(tx.tables + {table})
  }

  /** gorm's `tx.Migrator().DropTable(name)` (DROP TABLE IF EXISTS). */
  function DropTable(tx: Tx, table: string): (r: Result<Schema, string>)
    ensures r.Failure? <==> table in tx.refused
    ensures r.Success? ==> table !in r.value && r.value + {table} == tx.tables + {table}
  {
    if table in tx.refused then Failure("cannot drop table " + table)
    else Success(tx.tables - {table})
  }

  /** A migration unit: its `ID()`, and its `Migrate(tx)` and `Rollback(tx)`
      as the schema they leave in the transaction or the error they return. */
  datatype Unit = Unit(
    id: string,
    forward: Tx -> Result<Schema, string>,
    backward: Tx -> Result<Schema, string>)

  /** A row of the record table; `appliedAt` is the store's stamp at insertion. */
  datatype MigrationRecord = MigrationRecord(id: string, appliedAt: nat)

  /** The store operations that fail in a run, keyed by the unit id (or the
      record id during rollback) they are performed for. */
  datatype Faults = Faults(
    recordTable: bool,      // AutoMigrate(&MigrationRecord{}) fails
    listing: bool,          // reading the record table fails
    begin: set<string>,     // db.Begin() fails
    ddl: set<string>,       // tables whose DDL the database refuses
    write: set<string>,     // inserting / deleting the record fails
    commit: set<string>)    // tx.Commit() fails

  const NoFaults := Faults(false, false, {}, {}, {}, {})

  /** The durable state of the database as far as the engine sees it. */
  datatype DbState = DbState(
    tables: Schema,
    recordTable: bool,
    records: seq<MigrationRecord>,
    clock: nat)

  /** The errors `Migrate` and `Rollback` return; the unit-level ones name
      the migration id, as the source's messages do. */
  datatype MigrationError =
    | RecordTableFailed               // "failed to create migrations table"
    | ListFailed                      // "failed to get applied migrations"
    | BeginFailed                     // "failed to begin transaction"
    | UnitFailed(id: string, cause: string)  // "migration %s failed" / "rollback of %s failed"
    | RecordFailed(id: string)        // "failed to record migration %s" / "failed to remove migration record %s"
    | CommitFailed(id: string)        // "failed to commit (rollback of) %s"

  /** The outcome of a run: the state it leaves and its error, if any. */
  datatype Run = Run(state: DbState, err: Option<MigrationError>)

  function RecordIds(records: seq<MigrationRecord>): set<string> {
    set r | r in records :: r.id
  }

  ghost predicate Increasing(records: seq<MigrationRecord>) {
    forall i, j :: 0 <= i < j < |records| ==> records[i].appliedAt < records[j].appliedAt
  }

  ghost predicate UniqueIds(records: seq<MigrationRecord>) {
    forall i, j :: 0 <= i < j < |records| ==> records[i].id != records[j].id
  }

  /** The invariant of the store: stamps are issued by the clock in
      insertion order, the id is the primary key, and there are no records
      without the record table. */
  ghost predicate Wf(s: DbState) {
    && (forall i :: 0 <= i < |s.records| ==> s.records[i].appliedAt < s.clock)
    && Increasing(s.records)
    && UniqueIds(s.records)
    && (!s.recordTable ==> s.records == [])
  }

  // ---------------------------------------------------------------------
  // Migrate
  // ---------------------------------------------------------------------

  /** One pending unit in its own transaction: begin, forward, insert the
      record, commit. Only a committed transaction changes the state. */
  function ApplyUnit(s: DbState, f: Faults, u: Unit): Result<DbState, MigrationError> {
    if u.id in f.begin then Failure(BeginFailed)
    else
      match u.forward(Tx(s.tables, f.ddl))
      case Failure(e) => Failure(UnitFailed(u.id, e))
      case Success(t) =>
        if u.id in f.write || u.id in RecordIds(s.records) then Failure(RecordFailed(u.id))
        else if u.id in f.commit then Failure(CommitFailed(u.id))
        else Success(DbState(t, s.recordTable, s.records + [MigrationRecord(u.id, s.clock)], s.clock + 1))
  }

  /** The loop over the registered units with the applied set read once
      before it: skip applied ids, apply the others, stop at the first error. */
  function RunPending(s: DbState, f: Faults, units: seq<Unit>, applied: set<string>): Run
    decreases |units|
  {
    if units == [] then Run(s, None)
    else if units[0].id in applied then RunPending(s, f, units[1..], applied)
    else
      match ApplyUnit(s, f, units[0])
      case Failure(e) => Run(s, Some(e))
      case Success(s') => RunPending(s', f, units[1..], applied)
  }

  /** `Migrate()`: create the record table, read the applied ids, run the
      pending units. */
  function MigrateSpec(s: DbState, f: Faults, units: seq<Unit>): Run {
    if f.recordTable then Run(s, Some(RecordTableFailed))
    else
      var s1 := s.(recordTable := true);
      if f.listing then Run(s1, Some(ListFailed))
      else RunPending(s1, f, units, RecordIds(s1.records))
  }

  // ---------------------------------------------------------------------
  // Rollback
  // ---------------------------------------------------------------------

  function Reverse<T>(s: seq<T>): (r: seq<T>)
    ensures |r| == |s|
    ensures forall i :: 0 <= i < |s| ==> r[i] == s[|s| - 1 - i]
  {
    if s == [] then [] else Reverse(s[1..]) + [s[0]]
  }

  function Min(a: nat, b: nat): nat { if a <= b then a else b }

  /** `Order("applied_at DESC").Limit(n).Find(...)`: with stamps increasing
      in insertion order, the last `n` records, newest first. */
  function Newest(records: seq<MigrationRecord>, n: nat): seq<MigrationRecord> {
    Reverse(records[|records| - Min(n, |records|)..])
  }

  /** The id-to-unit map built from the registered units; a later
      registration of the same id replaces an earlier one. */
  function UnitIndex(units: seq<Unit>): map<string, Unit> {
    if units == [] then map[]
    else UnitIndex(units[..|units| - 1])[units[|units| - 1].id := units[|units| - 1]]
  }

  /** The records other than those with the given id, in their order. */
  function RemoveRecord(records: seq<MigrationRecord>, id: string): (r: seq<MigrationRecord>)
    ensures forall x :: x in r <==> x in records && x.id != id
    ensures Increasing(records) ==> Increasing(r)
    ensures UniqueIds(records) ==> UniqueIds(r)
  {
    if records == [] then []
    else
      var rest := RemoveRecord(records[1..], id);
      TailKeeps(records);
      if records[0].id == id then rest
      else
        PrependKeeps(records[0], rest, records[1..]);
        [records[0]] + rest
  }

  /** Dropping the first record keeps stamp order and id uniqueness. */
  lemma TailKeeps(records: seq<MigrationRecord>)
    requires records != []
    ensures records == [records[0]] + records[1..]
    ensures forall x :: x in records <==> x == records[0] || x in records[1..]
    ensures Increasing(records) ==> Increasing(records[1..])
    ensures UniqueIds(records) ==> UniqueIds(records[1..])
  {
    var tail := records[1..];
    assert records == [records[0]] + tail;
    if Increasing(records) {
      forall i, j | 0 <= i < j < |tail| ensures tail[i].appliedAt < tail[j].appliedAt {
        assert tail[i] == records[i + 1] && tail[j] == records[j + 1];
      }
    }
    if UniqueIds(records) {
      forall i, j | 0 <= i < j < |tail| ensures tail[i].id != tail[j].id {
        assert tail[i] == records[i + 1] && tail[j] == records[j + 1];
      }
    }
  }

  /** Putting back the first record in front of a selection of the others
      keeps stamp order and id uniqueness. */
  lemma PrependKeeps(h: MigrationRecord, rest: seq<MigrationRecord>, tail: seq<MigrationRecord>)
    requires forall x :: x in rest ==> x in tail
    ensures Increasing([h] + tail) && Increasing(rest) ==> Increasing([h] + rest)
    ensures UniqueIds([h] + tail) && UniqueIds(rest) ==> UniqueIds([h] + rest)
  {
    var s, full := [h] + rest, [h] + tail;
    forall j | 1 <= j < |s| ensures exists k :: 1 <= k < |full| && full[k] == s[j] {
      assert s[j] == rest[j - 1] && rest[j - 1] in rest;
      var k :| 0 <= k < |tail| && tail[k] == s[j];
      assert full[k + 1] == s[j];
    }
    if Increasing(full) && Increasing(rest) {
      forall i, j | 0 <= i < j < |s| ensures s[i].appliedAt < s[j].appliedAt {
        if i == 0 {
          var k :| 1 <= k < |full| && full[k] == s[j];
          assert s[0] == full[0] && full[0].appliedAt < full[k].appliedAt;
        } else {
          assert s[i] == rest[i - 1] && s[j] == rest[j - 1];
        }
      }
    }
    if UniqueIds(full) && UniqueIds(rest) {
      forall i, j | 0 <= i < j < |s| ensures s[i].id != s[j].id {
        if i == 0 {
          var k :| 1 <= k < |full| && full[k] == s[j];
          assert s[0] == full[0] && full[0].id != full[k].id;
        } else {
          assert s[i] == rest[i - 1] && s[j] == rest[j - 1];
        }
      }
    }
  }

  /** One rollback in its own transaction: begin, backward, delete the
      record, commit. */
  function UndoUnit(s: DbState, f: Faults, u: Unit, id: string): Result<DbState, MigrationError> {
    if id in f.begin then Failure(BeginFailed)
    else
      match u.backward(Tx(s.tables, f.ddl))
      case Failure(e) => Failure(UnitFailed(id, e))
      case Success(t) =>
        if id in f.write then Failure(RecordFailed(id))
        else if id in f.commit then Failure(CommitFailed(id))
        else Success(s.(tables := t, records := RemoveRecord(s.records, id)))
  }

  /** The loop over the fetched records: skip ids with no registered unit,
      undo the others, stop at the first error. */
  function RollbackEach(s: DbState, f: Faults, index: map<string, Unit>, targets: seq<MigrationRecord>): Run
    decreases |targets|
  {
    if targets == [] then Run(s, None)
    else if targets[0].id !in index then RollbackEach(s, f, index, targets[1..])
    else
      match UndoUnit(s, f, index[targets[0].id], targets[0].id)
      case Failure(e) => Run(s, Some(e))
      case Success(s') => RollbackEach(s', f, index, targets[1..])
  }

  /** One turn of the rollback loop. */
  lemma RollbackEachStep(s: DbState, f: Faults, index: map<string, Unit>, targets: seq<MigrationRecord>)
    requires targets != []
    ensures targets[0].id !in index ==>
      RollbackEach(s, f, index, targets) == RollbackEach(s, f, index, targets[1..])
    ensures targets[0].id in index ==>
      var step := UndoUnit(s, f, index[targets[0].id], targets[0].id);
      RollbackEach(s, f, index, targets) ==
        if step.Failure? then Run(s, Some(step.error)) else RollbackEach(step.value, f, index, targets[1..])
  {
  }

  /** `Rollback(n)`: fetch the `n` newest records (which fails when the record
      table does not exist), then undo them newest first. */
  function RollbackSpec(s: DbState, f: Faults, units: seq<Unit>, n: nat): Run {
    if !s.recordTable || f.listing then Run(s, Some(ListFailed))
    else RollbackEach(s, f, UnitIndex(units), Newest(s.records, n))
  }

  // ---------------------------------------------------------------------
  // The store invariant is kept by every transaction
  // ---------------------------------------------------------------------

  lemma ApplyUnitWf(s: DbState, f: Faults, u: Unit)
    requires Wf(s) && s.recordTable
    ensures ApplyUnit(s, f, u).Success? ==> Wf(ApplyUnit(s, f, u).value)
  {
    if ApplyUnit(s, f, u).Success? {
      var recs := ApplyUnit(s, f, u).value.records;
      assert u.id !in RecordIds(s.records);
      forall i | 0 <= i < |s.records| ensures recs[i].id != u.id {
        assert s.records[i] in s.records;
      }
    }
  }

  lemma UndoUnitWf(s: DbState, f: Faults, u: Unit, id: string)
    requires Wf(s)
    ensures UndoUnit(s, f, u, id).Success? ==> Wf(UndoUnit(s, f, u, id).value)
  {
    if UndoUnit(s, f, u, id).Success? {
      var recs := UndoUnit(s, f, u, id).value.records;
      forall i | 0 <= i < |recs| ensures recs[i].appliedAt < s.clock {
        assert recs[i] in recs;
        var k :| 0 <= k < |s.records| && s.records[k] == recs[i];
      }
      assert s.records == [] ==> recs == [];
    }
  }

  // ---------------------------------------------------------------------
  // The loops of the source
  // ---------------------------------------------------------------------

  /** The `appliedMap` loop: the ids of the fetched records. */
  method AppliedIds(records: seq<MigrationRecord>) returns (applied: set<string>)
    ensures applied == RecordIds(records)
  {
    applied := {};
    var i := 0;
    while i < |records|
      invariant 0 <= i <= |records|
      invariant applied == RecordIds(records[..i])
    {
      assert records[..i + 1] == records[..i] + [records[i]];
      applied := applied + {records[i].id};
      i := i + 1;
    }
    assert records[..i] == records;
  }

  /** The `migrationsMap` loop: each registered unit under its id, a later
      registration overwriting an earlier one. */
  method IndexUnits(units: seq<Unit>) returns (index: map<string, Unit>)
    ensures index == UnitIndex(units)
  {
    index := map[];
    var i := 0;
    while i < |units|
      invariant 0 <= i <= |units|
      invariant index == UnitIndex(units[..i])
    {
      assert units[..i + 1][..i] == units[..i];
      index := index[units[i].id := units[i]];
      i := i + 1;
    }
    assert units[..i] == units;
  }

  // ---------------------------------------------------------------------
  // The database handle and the migrator
  // ---------------------------------------------------------------------

  /** The database behind the `*gorm.DB` handle. */
  class Store {
    var tables: Schema
    var recordTable: bool
    var records: seq<MigrationRecord>
    var clock: nat
    var faults: Faults

    function State(): DbState
      reads this
    {
      DbState(tables, recordTable, records, clock)
    }

    ghost predicate Valid()
      reads this
    {
      Wf(State())
    }

    /** A database with the given tables and no record table yet. */
    constructor (tables: Schema, faults: Faults)
      ensures Valid()
      ensures State() == DbState(tables, false, [], 0) && this.faults == faults
    {
      this.tables := tables;
      this.recordTable := false;
      this.records := [];
      this.clock := 0;
      this.faults := faults;
    }
  }

  /** The `Migrator`: the database handle and the registered units in
      registration order. The logger is left out. */
  class Migrator {
    const db: Store
    var migrations: seq<Unit>

    /** `NewMigrator(db, logger)`. */
    constructor (db: Store)
      ensures this.db == db && migrations == []
    {
      this.db := db;
      this.migrations := [];
    }

    /** `AddMigration`: append at the end of the list. */
    method AddMigration(u: Unit)
      modifies this
      ensures migrations == old(migrations) + [u]
    {
      migrations := migrations + [u];
    }

    /** `Migrate()`: runs the pending units in registration order, each in
        its own transaction, and stops at the first failure. */
    method Migrate() returns (err: Option<MigrationError>)
      requires db.Valid()
      modifies db
      ensures db.Valid() && db.faults == old(db.faults)
      ensures Run(db.State(), err) == MigrateSpec(old(db.State()), db.faults, migrations)
    {
      var f := db.faults;
      if f.recordTable {
        return Some(RecordTableFailed);
      }
      db.recordTable := true;
      if f.listing {
        return Some(ListFailed);
      }
      var applied := AppliedIds(db.records);
      var i := 0;
      while i < |migrations|
        invariant 0 <= i <= |migrations|
        invariant db.Valid() && db.recordTable && db.faults == f
        invariant RunPending(db.State(), f, migrations[i..], applied)
               == MigrateSpec(old(db.State()), f, migrations)
      {
        assert migrations[i..][1..] == migrations[i + 1..];
        var u := migrations[i];
        if u.id !in applied {
          ghost var before := db.State();
          ApplyUnitWf(before, f, u);
          if u.id in f.begin {
            return Some(BeginFailed);
          }
          var fw := u.forward(Tx(db.tables, f.ddl));
          if fw.Failure? {
            return Some(UnitFailed(u.id, fw.error));
          }
          if u.id in f.write || u.id in RecordIds(db.records) {
            return Some(RecordFailed(u.id));
          }
          if u.id in f.commit {
            return Some(CommitFailed(u.id));
          }
          db.tables, db.records, db.clock :=
            fw.value, db.records + [MigrationRecord(u.id, db.clock)], db.clock + 1;
          assert db.State() == ApplyUnit(before, f, u).value;
        }
        i := i + 1;
      }
      return None;
    }

    /** `Rollback(n)`: undoes the `n` newest records newest first, skipping
        those with no registered unit, and stops at the first failure. */
    method Rollback(n: nat) returns (err: Option<MigrationError>)
      requires db.Valid()
      modifies db
      ensures db.Valid() && db.faults == old(db.faults)
      ensures Run(db.State(), err) == RollbackSpec(old(db.State()), db.faults, migrations, n)
    {
      var f := db.faults;
      if !db.recordTable || f.listing {
        return Some(ListFailed);
      }
      var targets := Newest(db.records, n);
      var index := IndexUnits(migrations);
      var i := 0;
      while i < |targets|
        invariant 0 <= i <= |targets|
        invariant db.Valid() && db.faults == f
        invariant RollbackEach(db.State(), f, index, targets[i..])
               == RollbackSpec(old(db.State()), f, migrations, n)
      {
        assert targets[i..][1..] == targets[i + 1..];
        RollbackEachStep(db.State(), f, index, targets[i..]);
        var r := targets[i];
        if r.id in index {
          var u := index[r.id];
          ghost var before := db.State();
          ghost var step := UndoUnit(before, f, u, r.id);
          UndoUnitWf(before, f, u, r.id);
          if r.id in f.begin {
            assert step == Failure(BeginFailed);
            return Some(BeginFailed);
          }
          var bw := u.backward(Tx(db.tables, f.ddl));
          if bw.Failure? {
            assert step == Failure(UnitFailed(r.id, bw.error));
            return Some(UnitFailed(r.id, bw.error));
          }
          if r.id in f.write {
            assert step == Failure(RecordFailed(r.id));
            return Some(RecordFailed(r.id));
          }
          if r.id in f.commit {
            assert step == Failure(CommitFailed(r.id));
            return Some(CommitFailed(r.id));
          }
          db.tables, db.records := bw.value, RemoveRecord(db.records, r.id);
          assert db.State() == step.value;
        }
        i := i + 1;
      }
      return None;
    }
  }
}
