/** internal/database/migration/registry.go: the migrator with its ordered
    unit list, and what running it does. */
module MigrationRegistry {
  import opened Wrappers
  import opened Migration
  import opened MigrationUnits

  /** The registered list: only the users table; the folders, files and
      shares units exist but are not registered. */
  function Registered(): (units: seq<Unit>)
    ensures |units| == 1 && units[0].id == "001_create_users_table"
    ensures CreatesTable(units[0], "users")
  {
    [CreateUsersTable()]
  }

  /** `RegisterMigrations(db, logger)`: a new migrator on the given handle,
      built by appending the registered units. */
  method RegisterMigrations(db: Store) returns (m: Migrator)
    ensures fresh(m) && m.db == db
    ensures m.migrations == Registered()
  {
    m := new Migrator(db);
    m.AddMigration(CreateUsersTable());
  }

  const Fresh := DbState({}, false, [], 0)

  /** On a fresh database, `Migrate` creates the users table and records only
      its unit, with the first stamp. */
  lemma FreshMigrateRecordsUsersOnly()
    ensures MigrateSpec(Fresh, NoFaults, Registered())
         == Run(DbState({"users"}, true, [MigrationRecord("001_create_users_table", 0)], 1), None)
  {
    var u := CreateUsersTable();
    assert u.forward(Tx({}, {})) == AutoMigrate(Tx({}, {}), "users");
    assert {} + {"users"} == {"users"};
    assert RecordIds([]) == {};
  }

  const UsersRecord := MigrationRecord("001_create_users_table", 0)
  const FoldersRecord := MigrationRecord("002_create_folders_table", 1)

  /** Both tables created, both units recorded in registration order. */
  const TwoApplied := DbState({"users", "folders"}, true, [UsersRecord, FoldersRecord], 2)

  /** Registering users then folders and migrating a fresh database applies
      both, stamping them in registration order. */
  lemma MigrateTwoUnits()
    ensures MigrateSpec(Fresh, NoFaults, [CreateUsersTable(), CreateFoldersTable()])
         == Run(TwoApplied, None)
  {
    var units := [CreateUsersTable(), CreateFoldersTable()];
    var f := NoFaults;
    var s1 := Fresh.(recordTable := true);
    var s2 := DbState({"users"}, true, [UsersRecord], 1);
    assert RecordIds([]) == {};
    assert MigrateSpec(Fresh, f, units) == RunPending(s1, f, units, {});
    var tx0 := Tx({}, {});
    assert units[0].forward(tx0) == AutoMigrate(tx0, "users");
    assert {} + {"users"} == {"users"};
    assert s1.records + [MigrationRecord(units[0].id, s1.clock)] == [UsersRecord];
    assert ApplyUnit(s1, f, units[0]) == Success(s2);
    var tx1 := Tx({"users"}, {});
    assert units[1].forward(tx1) == AutoMigrate(tx1, "folders");
    assert {"users"} + {"folders"} == {"users", "folders"};
    assert RecordIds([UsersRecord]) == {"001_create_users_table"};
    assert s2.records + [MigrationRecord(units[1].id, s2.clock)] == [UsersRecord, FoldersRecord];
    assert ApplyUnit(s2, f, units[1]) == Success(TwoApplied);
    assert units[1..][1..] == [];
    assert RunPending(s2, f, units[1..], {}) == RunPending(TwoApplied, f, [], {});
  }

  /** `Rollback(1)` after that undoes only the newest unit: the folders table
      is dropped and its record deleted. */
  lemma RollbackOneAfterTwo()
    ensures RollbackSpec(TwoApplied, NoFaults, [CreateUsersTable(), CreateFoldersTable()], 1)
         == Run(DbState({"users"}, true, [UsersRecord], 2), None)
  {
    var units := [CreateUsersTable(), CreateFoldersTable()];
    var recs := TwoApplied.records;
    assert recs[1..] == [FoldersRecord];
    assert Newest(recs, 1) == [FoldersRecord];
    assert units[..1][..0] == [];
    assert FoldersRecord.id in UnitIndex(units);
    assert UnitIndex(units)[FoldersRecord.id] == CreateFoldersTable();
    var tx := Tx({"users", "folders"}, {});
    assert CreateFoldersTable().backward(tx) == DropTable(tx, "folders");
    assert {"users", "folders"} - {"folders"} == {"users"};
    assert recs[1..][1..] == [];
    assert RemoveRecord(recs[1..], FoldersRecord.id) == [];
    assert RemoveRecord(recs, FoldersRecord.id) == [UsersRecord];
    var s' := DbState({"users"}, true, [UsersRecord], 2);
    assert UndoUnit(TwoApplied, NoFaults, CreateFoldersTable(), FoldersRecord.id) == Success(s');
    assert RollbackEach(TwoApplied, NoFaults, UnitIndex(units), [FoldersRecord])
        == RollbackEach(s', NoFaults, UnitIndex(units), []);
  }

  /** When the database refuses the folders DDL, the run stops there: the
      users unit stays applied and the error names the failing unit. */
  lemma MigrateStopsAtRefusedUnit()
    ensures MigrateSpec(Fresh, NoFaults.(ddl := {"folders"}), [CreateUsersTable(), CreateFoldersTable()])
         == Run(DbState({"users"}, true, [UsersRecord], 1),
                Some(UnitFailed("002_create_folders_table", "cannot migrate table folders")))
  {
    var units := [CreateUsersTable(), CreateFoldersTable()];
    var f := NoFaults.(ddl := {"folders"});
    var s1 := Fresh.(recordTable := true);
    var s2 := DbState({"users"}, true, [UsersRecord], 1);
    assert RecordIds([]) == {};
    assert MigrateSpec(Fresh, f, units) == RunPending(s1, f, units, {});
    var tx0 := Tx({}, {"folders"});
    assert units[0].forward(tx0) == AutoMigrate(tx0, "users");
    assert {} + {"users"} == {"users"};
    assert s1.records + [MigrationRecord(units[0].id, s1.clock)] == [UsersRecord];
    assert ApplyUnit(s1, f, units[0]) == Success(s2);
    var tx1 := Tx({"users"}, {"folders"});
    assert units[1].forward(tx1) == AutoMigrate(tx1, "folders");
    assert "cannot migrate table " + "folders" == "cannot migrate table folders";
    assert ApplyUnit(s2, f, units[1]) == Failure(UnitFailed("002_create_folders_table", "cannot migrate table folders"));
    assert RunPending(s1, f, units, {}) == RunPending(s2, f, units[1..], {});
  }

  /** A fetched record whose unit is no longer registered is skipped: with
      only the users unit registered, `Rollback(1)` changes nothing and
      reports no error. */
  lemma RollbackSkipsUnregistered()
    ensures RollbackSpec(TwoApplied, NoFaults, Registered(), 1) == Run(TwoApplied, None)
  {
    var recs := TwoApplied.records;
    assert recs[1..] == [FoldersRecord];
    assert Newest(recs, 1) == [FoldersRecord];
    assert Registered()[..0] == [];
    assert UnitIndex(Registered()) == map["001_create_users_table" := CreateUsersTable()];
    assert FoldersRecord.id !in UnitIndex(Registered());
    assert RollbackEach(TwoApplied, NoFaults, UnitIndex(Registered()), [FoldersRecord])
        == RollbackEach(TwoApplied, NoFaults, UnitIndex(Registered()), []);
  }
}
