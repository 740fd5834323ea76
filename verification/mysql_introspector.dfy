/** `MysqlIntrospector.getTables`: the information schema rows folded into
    tables of columns, each column carrying the flags the type collector
    reads. The query runs in the database and the member values of enum and
    set columns are re-selected through it; both are inputs here. */
module MysqlIntrospector {
  import opened Wrappers
  import opened Strings
  import opened Grouping
  import opened InformationSchema

  datatype MysqlColumn = MysqlColumn(
    name: string,
    comment: Option<string>,
    dataType: string,
    isAutoIncrementing: bool,
    isNullable: bool,
    hasDefaultValue: bool,
    columnType: string,
    isVirtual: bool,
    memberValues: Option<seq<string>>)

  datatype MysqlTable = MysqlTable(
    name: string,
    schema: string,
    isView: bool,
    comment: Option<string>,
    columns: seq<MysqlColumn>)

  /** The text between the first `(` and the last character of the column
      type, with JavaScript's `substring` clamping. */
  function MemberList(columnType: string): string {
    Substring(columnType, IndexOf(columnType, '(') + 1, |columnType| - 1)
  }

  /** For `enum('a','b')` the list is exactly what the parentheses hold. */
  lemma MemberListInsideParens(prefix: string, body: string)
    requires '(' !in prefix
    ensures MemberList(prefix + "(" + body + ")") == body
  {
    var ct := prefix + "(" + body + ")";
    assert ct[|prefix|] == '(';
    assert ct[..|prefix|] == prefix;
    assert IndexOf(ct, '(') == |prefix|;
    assert ct[|prefix| + 1..|ct| - 1] == body;
  }

  /** Without a `(` the index is -1, so the list is the whole type minus its
      last character. */
  lemma MemberListWithoutParens(columnType: string)
    requires '(' !in columnType && |columnType| > 0
    ensures MemberList(columnType) == columnType[..|columnType| - 1]
  {
  }

  /** A type that closes with `)` yields the text between its first `(` and
      that closing parenthesis. */
  lemma MemberListAtFirstParen(columnType: string)
    ensures forall k | 0 <= k < |columnType| - 1 && columnType[k] == '(' && '(' !in columnType[..k]
        && columnType[|columnType| - 1] == ')' ::
      MemberList(columnType) == columnType[k + 1..|columnType| - 1]
  {
    forall k | 0 <= k < |columnType| - 1 && columnType[k] == '(' && '(' !in columnType[..k]
        && columnType[|columnType| - 1] == ')'
      ensures MemberList(columnType) == columnType[k + 1..|columnType| - 1]
    {
      var prefix, body := columnType[..k], columnType[k + 1..|columnType| - 1];
      assert columnType == prefix + "(" + body + ")";
      MemberListInsideParens(prefix, body);
    }
  }

  /** `#getMemberValues`: for a type written `prefix(body)` with no `(` in
      the prefix, the database is asked to select exactly `body`. */
  function GetMemberValues(columnType: string, select: ValueSelector): (r: seq<string>)
    ensures forall k | 0 <= k < |columnType| - 1 && columnType[k] == '(' && '(' !in columnType[..k]
        && columnType[|columnType| - 1] == ')' ::
      r == select(columnType[k + 1..|columnType| - 1])
  {
    MemberListAtFirstParen(columnType);
    select(MemberList(columnType))
  }

  /** For `enum('a','b')` the database is asked to select exactly what the
      parentheses hold. */
  lemma MemberValuesOfList(prefix: string, body: string, select: ValueSelector)
    requires '(' !in prefix
    ensures GetMemberValues(prefix + "(" + body + ")", select) == select(body)
  {
    MemberListInsideParens(prefix, body);
  }

  /** An empty comment reads as no comment. */
  function NonEmpty(s: string): (r: Option<string>)
    ensures r.None? <==> s == ""
    ensures r.Some? ==> r.value == s
  {
    if s != "" then Some(s) else None
  }

  predicate IsEnumOrSet(dataType: string) {
    dataType == "enum" || dataType == "set"
  }

  /** One row as a column of its table. */
  function ToColumn(row: ColumnRow, select: ValueSelector): (c: MysqlColumn)
    ensures c.name == row.columnName && c.dataType == row.dataType && c.columnType == row.columnType
    ensures c.comment == NonEmpty(row.columnComment)
    ensures c.isNullable <==> row.isNullable == "YES"
    ensures c.hasDefaultValue <==> row.columnDefault.Some?
    ensures c.isAutoIncrementing <==> Contains(ToLower(row.extra), "auto_increment")
    ensures c.isVirtual <==> Contains(ToLower(row.extra), "virtual")
    ensures c.memberValues.Some? <==> IsEnumOrSet(row.dataType)
    ensures c.memberValues.Some? ==> c.memberValues.value == select(MemberList(row.columnType))
  {
    var extra := ToLower(row.extra);
    IncludesIffContains(extra, "auto_increment");
    IncludesIffContains(extra, "virtual");
    MysqlColumn(
      row.columnName,
      NonEmpty(row.columnComment),
      row.dataType,
      Includes(extra, "auto_increment"),
      row.isNullable == "YES",
      row.columnDefault.Some?,
      row.columnType,
      Includes(extra, "virtual"),
      if IsEnumOrSet(row.dataType) then Some(GetMemberValues(row.columnType, select)) else None)
  }

  /** `auto_increment` is found whatever its case in `EXTRA`. */
  lemma AutoIncrementAnyCase(row: ColumnRow, select: ValueSelector)
    requires Contains(row.extra, "AUTO_INCREMENT")
    ensures ToColumn(row, select).isAutoIncrementing
  {
    ContainsLower(row.extra, "AUTO_INCREMENT");
    LowerAutoIncrement();
  }

  lemma LowerAutoIncrement()
    ensures ToLower("AUTO_INCREMENT") == "auto_increment"
  {
  }

  function Columns(rows: seq<ColumnRow>, select: ValueSelector): (r: seq<MysqlColumn>)
    ensures |r| == |rows|
    ensures forall i | 0 <= i < |rows| :: r[i] == ToColumn(rows[i], select)
  {
    seq(|rows|, i requires 0 <= i < |rows| => ToColumn(rows[i], select))
  }

  /** A table is created from its first row and collects the columns of all
      its rows. */
  function BuildTable(group: seq<ColumnRow>, select: ValueSelector): (t: MysqlTable)
    requires |group| > 0
    ensures t.name == group[0].tableName && t.schema == group[0].tableSchema
    ensures t.isView <==> group[0].tableType != "BASE TABLE"
    ensures t.comment == NonEmpty(group[0].tableComment)
    ensures t.columns == Columns(group, select)
  {
    var first := group[0];
    MysqlTable(
      first.tableName,
      first.tableSchema,
      first.tableType != "BASE TABLE",
      NonEmpty(first.tableComment),
      Columns(group, select))
  }

  /** The rows the query returns: the migration tables are filtered out
      unless `withInternalKyselyTables` is set. */
  function VisibleRows(rows: seq<ColumnRow>, withInternalKyselyTables: bool): seq<ColumnRow> {
    if withInternalKyselyTables then rows else WithoutMigrationTables(rows)
  }

  /** `getTables`: one table per distinct table name, each with the columns
      of exactly that table's rows in row order. */
  function GetTables(rows: seq<ColumnRow>, withInternalKyselyTables: bool, select: ValueSelector)
    : (ts: seq<MysqlTable>)
    ensures var gs := GroupBy(VisibleRows(rows, withInternalKyselyTables), TableNameOf);
      |ts| == |gs|
    ensures forall i | 0 <= i < |ts| ::
      ts[i].columns == Columns(Filter(VisibleRows(rows, withInternalKyselyTables), TableNameOf, ts[i].name), select)
    ensures !withInternalKyselyTables ==> forall t | t in ts :: !IsMigrationTable(t.name)
    ensures var gs := GroupBy(VisibleRows(rows, withInternalKyselyTables), TableNameOf);
      forall i | 0 <= i < |ts| ::
        && ts[i].name == gs[i][0].tableName
        && ts[i].schema == gs[i][0].tableSchema
        && (ts[i].isView <==> gs[i][0].tableType != "BASE TABLE")
        && ts[i].comment == NonEmpty(gs[i][0].tableComment)
  {
    var visible := VisibleRows(rows, withInternalKyselyTables);
    var gs := GroupBy(visible, TableNameOf);
    var ts := seq(|gs|, i requires 0 <= i < |gs| => BuildTable(gs[i], select));
    assert forall i | 0 <= i < |ts| :: ts[i].name == TableNameOf(gs[i][0]);
    assert forall i | 0 <= i < |ts| :: gs[i][0] in visible;
    TablesFromFirstRows(gs, select, ts);
    ts
  }

  lemma TablesFromFirstRows(gs: seq<seq<ColumnRow>>, select: ValueSelector, ts: seq<MysqlTable>)
    requires forall i | 0 <= i < |gs| :: |gs[i]| > 0
    requires |ts| == |gs| && forall i | 0 <= i < |gs| :: ts[i] == BuildTable(gs[i], select)
    ensures forall i | 0 <= i < |ts| ::
      && ts[i].name == gs[i][0].tableName
      && ts[i].schema == gs[i][0].tableSchema
      && (ts[i].isView <==> gs[i][0].tableType != "BASE TABLE")
      && ts[i].comment == NonEmpty(gs[i][0].tableComment)
  {
  }

  /** No two tables share a name. */
  lemma TableNamesDistinct(rows: seq<ColumnRow>, withInternalKyselyTables: bool, select: ValueSelector)
    ensures var ts := GetTables(rows, withInternalKyselyTables, select);
      forall i, j | 0 <= i < j < |ts| :: ts[i].name != ts[j].name
  {
    var visible := VisibleRows(rows, withInternalKyselyTables);
    GroupKeysDistinct(visible, TableNameOf);
  }

  /** Every row the query returns is a column of the table of its name. */
  lemma EveryRowHasItsTable(rows: seq<ColumnRow>, withInternalKyselyTables: bool, select: ValueSelector)
    ensures var ts := GetTables(rows, withInternalKyselyTables, select);
      forall row | row in VisibleRows(rows, withInternalKyselyTables) ::
        exists i | 0 <= i < |ts| :: ts[i].name == row.tableName
  {
    var visible := VisibleRows(rows, withInternalKyselyTables);
    var ts := GetTables(rows, withInternalKyselyTables, select);
    var gs := GroupBy(visible, TableNameOf);
    GroupsCoverItems(visible, TableNameOf);
    TablesNamedByGroups(rows, withInternalKyselyTables, select);
    forall row | row in visible ensures exists i | 0 <= i < |ts| :: ts[i].name == row.tableName {
      var i :| 0 <= i < |gs| && TableNameOf(gs[i][0]) == TableNameOf(row);
      assert ts[i].name == row.tableName;
    }
  }

  /** Each table is named after the key of its group. */
  lemma TablesNamedByGroups(rows: seq<ColumnRow>, withInternalKyselyTables: bool, select: ValueSelector)
    ensures var ts := GetTables(rows, withInternalKyselyTables, select);
      var gs := GroupBy(VisibleRows(rows, withInternalKyselyTables), TableNameOf);
      |ts| == |gs| && forall i | 0 <= i < |ts| :: ts[i].name == TableNameOf(gs[i][0])
  {
  }

  /** The tables keep the order in which their first row arrives. */
  lemma TablesInRowOrder(rows: seq<ColumnRow>, withInternalKyselyTables: bool, select: ValueSelector)
    ensures var ts := GetTables(rows, withInternalKyselyTables, select);
      var visible := VisibleRows(rows, withInternalKyselyTables);
      forall i, j | 0 <= i < j < |ts| ::
        HasKey(visible, TableNameOf, ts[i].name) && HasKey(visible, TableNameOf, ts[j].name) &&
        FirstIndex(visible, TableNameOf, ts[i].name) < FirstIndex(visible, TableNameOf, ts[j].name)
  {
    var visible := VisibleRows(rows, withInternalKyselyTables);
    var ts := GetTables(rows, withInternalKyselyTables, select);
    var gs := GroupBy(visible, TableNameOf);
    GroupsInFirstRowOrder(visible, TableNameOf);
    forall i | 0 <= i < |ts| ensures HasKey(visible, TableNameOf, ts[i].name) {
      assert gs[i][0] in visible;
      var n :| 0 <= n < |visible| && visible[n] == gs[i][0];
      assert TableNameOf(visible[n]) == ts[i].name;
    }
  }

  /** With `withInternalKyselyTables` set nothing is filtered: the migration
      tables appear like any other. */
  lemma InternalTablesKept(rows: seq<ColumnRow>, select: ValueSelector)
    requires exists row | row in rows :: row.tableName == MigrationTable
    ensures exists t | t in GetTables(rows, true, select) :: t.name == MigrationTable
  {
    var row :| row in rows && row.tableName == MigrationTable;
    EveryRowHasItsTable(rows, true, select);
    var ts := GetTables(rows, true, select);
    var i :| 0 <= i < |ts| && ts[i].name == row.tableName;
    assert ts[i] in ts;
  }
}
