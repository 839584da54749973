/** The four migration units of internal/database/migration/001_* to 004_*:
    each creates one table with gorm's AutoMigrate and drops it on rollback,
    passing the schema operation's error on unchanged. */
module MigrationUnits {
  import opened Wrappers
  import opened Migration

  /** `u`'s forward step is exactly AutoMigrate of `table` and its backward
      step exactly DropTable of it, results and errors alike. */
  ghost predicate CreatesTable(u: Unit, table: string) {
    forall tx: Tx :: u.forward(tx) == AutoMigrate(tx, table) && u.backward(tx) == DropTable(tx, table)
  }

  /** 001_create_users_table.go */
  function CreateUsersTable(): (u: Unit)
    ensures u.id == "001_create_users_table" && CreatesTable(u, "users")
  {
    Unit("001_create_users_table", tx => AutoMigrate(tx, "users"), tx => DropTable(tx, "users"))
  }

  /** 002_create_folders_table.go */
  function CreateFoldersTable(): (u: Unit)
    ensures u.id == "002_create_folders_table" && CreatesTable(u, "folders")
  {
    Unit("002_create_folders_table", tx => AutoMigrate(tx, "folders"), tx => DropTable(tx, "folders"))
  }

  /** 003_create_files_table.go */
  function CreateFilesTable(): (u: Unit)
    ensures u.id == "003_create_files_table" && CreatesTable(u, "files")
  {
    Unit("003_create_files_table", tx => AutoMigrate(tx, "files"), tx => DropTable(tx, "files"))
  }

  /** 004_create_shares_table.go */
  function CreateSharesTable(): (u: Unit)
    ensures u.id == "004_create_shares_table" && CreatesTable(u, "shares")
  {
    Unit("004_create_shares_table", tx => AutoMigrate(tx, "shares"), tx => DropTable(tx, "shares"))
  }

  /** A table-creating unit's forward step adds its table and nothing else,
      its backward step removes its table and nothing else, and each fails
      exactly when the database refuses DDL on that table. */
  lemma CreateTableEffect(u: Unit, table: string, tx: Tx)
    requires CreatesTable(u, table)
    ensures u.forward(tx).Failure? <==> table in tx.refused
    ensures u.backward(tx).Failure? <==> table in tx.refused
    ensures u.forward(tx).Success? ==> u.forward(tx).value == tx.tables + {table}
    ensures u.backward(tx).Success? ==> u.backward(tx).value == tx.tables - {table}
  {
    assert u.forward(tx) == AutoMigrate(tx, table);
    assert u.backward(tx) == DropTable(tx, table);
  }

  /** On a schema without the table, forward then backward restores the
      original set of tables. */
  lemma CreateTableRoundTrip(u: Unit, table: string, tx: Tx)
    requires CreatesTable(u, table)
    requires table !in tx.tables && table !in tx.refused
    ensures u.forward(tx).Success?
    ensures u.backward(Tx(u.forward(tx).value, tx.refused)) == Success(tx.tables)
  {
    CreateTableEffect(u, table, tx);
    var tx' := Tx(u.forward(tx).value, tx.refused);
    CreateTableEffect(u, table, tx');
    assert tx'.tables - {table} == tx.tables;
  }

  /** The four ids are pairwise distinct. */
  lemma UnitIdsDistinct()
    ensures var ids := [CreateUsersTable().id, CreateFoldersTable().id,
                        CreateFilesTable().id, CreateSharesTable().id];
            forall i, j :: 0 <= i < j < 4 ==> ids[i] != ids[j]
  {
    var ids := [CreateUsersTable().id, CreateFoldersTable().id,
                CreateFilesTable().id, CreateSharesTable().id];
    assert ids[0][2] == '1' && ids[1][2] == '2' && ids[2][2] == '3' && ids[3][2] == '4';
  }
}
