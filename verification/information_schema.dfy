/** The rows both MySQL introspectors read: `information_schema.COLUMNS`
    joined with `information_schema.TABLES` on schema and table name, for
    the current database, ordered by table name and column position. The
    query itself runs in the database; the model starts from its result. */
module InformationSchema {
  import opened Wrappers

  /** One result row, holding the columns either introspector selects. */
  datatype ColumnRow = ColumnRow(
    tableSchema: string,
    tableName: string,
    tableType: string,
    tableComment: string,
    columnName: string,
    columnType: string,
    dataType: string,
    isNullable: string,
    columnDefault: Option<string>,
    extra: string,
    columnComment: string)

  /** What the database answers to `SELECT <list>`: the values of its one
      row as `Object.values` lists them (integer-like column names first,
      then the others in column order), or none when it returns no row.
      Both introspectors re-select enum and set member lists this way. */
  type ValueSelector = string -> seq<string>

  /** Kysely's `DEFAULT_MIGRATION_TABLE` and `DEFAULT_MIGRATION_LOCK_TABLE`. */
  const MigrationTable := "kysely_migration"
  const MigrationLockTable := "kysely_migration_lock"

  predicate IsMigrationTable(name: string) {
    name == MigrationTable || name == MigrationLockTable
  }

  function TableNameOf(row: ColumnRow): string {
    row.tableName
  }

  /** The two `TABLE_NAME != …` conditions: the rows of every other table,
      in their order. */
  function WithoutMigrationTables(rows: seq<ColumnRow>): (r: seq<ColumnRow>)
    ensures forall x | x in r :: x in rows && !IsMigrationTable(x.tableName)
    ensures forall x | x in rows && !IsMigrationTable(x.tableName) :: x in r
    ensures |r| <= |rows|
  {
    if |rows| == 0 then []
    else
      (if IsMigrationTable(rows[0].tableName) then [] else [rows[0]]) + WithoutMigrationTables(rows[1..])
  }
}
