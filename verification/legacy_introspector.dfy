/** The legacy `MysqlIntrospector.getTables`: the information schema rows
    folded into tables whose columns carry their TypeScript type as text,
    built from the legacy data type table, the enum members, nullability
    and generation. */
module LegacyIntrospector {
  import opened Wrappers
  import opened Strings
  import opened Imports
  import opened Grouping
  import opened InformationSchema
  import opened Introspector
  import opened MysqlDataTypes
  import opened LegacyDataTypes
  import Types

  datatype IntrospectionError = IntrospectionError(message: string)

  /** The message of the unknown data type error. The table is interpolated
      as an object, so it always reads `[object Object]`. */
  function UnknownTypeMessage(dataType: string, columnName: string): string {
    "Unknown MySQL data type " + dataType + " for column [object Object]." + columnName
  }

  /** The member list of an enum or set column: the column type from just
      after `<dataType>(` up to its last character. */
  function ValuesSql(columnType: string, dataType: string): string {
    Substring(columnType, |dataType| + 1, |columnType| - 1)
  }

  /** For `enum('a','b')` the list is exactly what the parentheses hold. */
  lemma ValuesSqlInsideParens(dataType: string, body: string)
    ensures ValuesSql(dataType + "(" + body + ")", dataType) == body
  {
    var ct := dataType + "(" + body + ")";
    assert ct[|dataType| + 1..|ct| - 1] == body;
  }

  /** Each member quoted, joined by ` | `. */
  function EnumText(values: seq<string>): string {
    Join(Types.QuotedValues(values), " | ")
  }

  const BufferImport := TypeImport("node:buffer", None, Some([Named("Buffer")]))
  const GeneratedImport := TypeImport("kysely", None, Some([Named("Generated")]))

  /** A default or an `auto_increment` extra, in any case, makes the column
      generated. */
  predicate IsGenerated(row: ColumnRow) {
    row.columnDefault.Some? || Contains(ToLower(row.extra), "auto_increment")
  }

  /** The type text before the column's refinements: the enum members for
      `enum` and `set`, the native type otherwise. */
  function BaseText(row: ColumnRow, native: string, select: ValueSelector): string {
    if row.dataType == "enum" || row.dataType == "set" then
      EnumText(select(ValuesSql(row.columnType, row.dataType)))
    else native
  }

  /** The type of one column, from the native type text of its data type. */
  function ColumnTsType(row: ColumnRow, native: string, select: ValueSelector): (t: TsType)
    ensures t.imports.Some?
    ensures var base := BaseText(row, native, select);
      var nullable := if row.isNullable == "YES" then base + " | null" else base;
      t.text == if IsGenerated(row) then "Generated<" + nullable + ">" else nullable
    ensures BufferImport in t.imports.value <==> BaseText(row, native, select) == "Buffer"
    ensures GeneratedImport in t.imports.value <==> IsGenerated(row)
    ensures |t.imports.value| <= 2
  {
    IncludesIffContains(ToLower(row.extra), "auto_increment");
    var text := BaseText(row, native, select);
    var imports := if text == "Buffer" then [BufferImport] else [];
    var text := if row.isNullable == "YES" then text + " | null" else text;
    var generated := row.columnDefault.Some? || Includes(ToLower(row.extra), "auto_increment");
    var text := if generated then "Generated<" + text + ">" else text;
    var imports := if generated then imports + [GeneratedImport] else imports;
    TsType(text, Some(imports))
  }

  /** One row as a column: fails exactly when the data type is unknown. */
  function ColumnFor(row: ColumnRow, opts: PoolConfig, select: ValueSelector)
    : (r: Result<ColumnMetadata, IntrospectionError>)
    ensures r.Ok? <==> IsLegacyDataType(row.dataType)
    ensures r.Err? ==> r.error == IntrospectionError(UnknownTypeMessage(row.dataType, row.columnName))
    ensures r.Ok? ==>
      && r.value.name == row.columnName
      && r.value.comment == Some(row.columnComment)
      && r.value.tsType == ColumnTsType(row, GetNativeText(row.dataType, opts).value, select)
  {
    if !IsLegacyDataType(row.dataType) then
      Err(IntrospectionError(UnknownTypeMessage(row.dataType, row.columnName)))
    else
      var native := GetNativeText(row.dataType, opts).value;
      Ok(ColumnMetadata(row.columnName, Some(row.columnComment), ColumnTsType(row, native, select)))
  }

  /** The only imports a column asks for are the named `Buffer` and
      `Generated` bindings. */
  lemma LegacyImports(row: ColumnRow, native: string, select: ValueSelector)
    ensures forall imp | imp in ColumnTsType(row, native, select).imports.value ::
      imp == BufferImport || imp == GeneratedImport
  {
  }

  /** The first row whose data type the legacy table does not know. */
  function FirstUnknown(rows: seq<ColumnRow>): (r: Option<nat>)
    ensures r.None? <==> forall row | row in rows :: IsLegacyDataType(row.dataType)
    ensures r.Some? ==>
      && r.value < |rows| && !IsLegacyDataType(rows[r.value].dataType)
      && forall j | 0 <= j < r.value :: IsLegacyDataType(rows[j].dataType)
  {
    if |rows| == 0 then None
    else if !IsLegacyDataType(rows[0].dataType) then Some(0)
    else
      match FirstUnknown(rows[1..])
      case None =>
        assert forall row | row in rows :: row == rows[0] || row in rows[1..];
        None
      case Some(k) =>
        assert forall j | 1 <= j < k + 1 :: rows[j] == rows[1..][j - 1];
        Some(k + 1)
  }

  predicate AllKnown(rows: seq<ColumnRow>) {
    forall row | row in rows :: IsLegacyDataType(row.dataType)
  }

  /** The columns of one table's rows, in row order. */
  function TableColumns(group: seq<ColumnRow>, opts: PoolConfig, select: ValueSelector)
    : (cs: seq<ColumnMetadata>)
    requires AllKnown(group)
    ensures |cs| == |group|
    ensures forall j | 0 <= j < |group| :: Ok(cs[j]) == ColumnFor(group[j], opts, select)
  {
    assert forall j | 0 <= j < |group| :: group[j] in group;
    seq(|group|, j requires 0 <= j < |group| => ColumnFor(group[j], opts, select).value)
  }

  lemma AllKnownFilter(visible: seq<ColumnRow>, name: string)
    requires AllKnown(visible)
    ensures AllKnown(Filter(visible, TableNameOf, name))
  {
  }

  /** The fold over rows that all have known data types: one table per
      table name, created from its first row, whose schema and comment are
      copied as they are, an empty comment included. */
  function BuildTables(visible: seq<ColumnRow>, opts: PoolConfig, select: ValueSelector)
    : (ts: seq<TableMetadata>)
    requires AllKnown(visible)
    ensures |ts| == |GroupBy(visible, TableNameOf)|
    ensures forall i | 0 <= i < |ts| ::
      var first := GroupBy(visible, TableNameOf)[i][0];
      && ts[i].name == first.tableName
      && ts[i].schema == Some(first.tableSchema)
      && ts[i].comment == Some(first.tableComment)
      && AllKnown(Filter(visible, TableNameOf, ts[i].name))
      && ts[i].columns == TableColumns(Filter(visible, TableNameOf, ts[i].name), opts, select)
  {
    var gs := GroupBy(visible, TableNameOf);
    forall i | 0 <= i < |gs| ensures AllKnown(Filter(visible, TableNameOf, TableNameOf(gs[i][0]))) {
      AllKnownFilter(visible, TableNameOf(gs[i][0]));
    }
    seq(|gs|, i requires 0 <= i < |gs| =>
      var first := gs[i][0];
      TableMetadata(
        first.tableName,
        Some(first.tableSchema),
        TableColumns(Filter(visible, TableNameOf, first.tableName), opts, select),
        Some(first.tableComment)))
  }

  /** `getTables`: the migration tables are always left out; the first row
      with an unknown data type aborts the whole run. */
  function GetTables(rows: seq<ColumnRow>, opts: PoolConfig, select: ValueSelector)
    : (r: Result<seq<TableMetadata>, IntrospectionError>)
    ensures r.Ok? <==> AllKnown(WithoutMigrationTables(rows))
    ensures r.Err? ==> exists i | 0 <= i < |WithoutMigrationTables(rows)| ::
      && (forall j | 0 <= j < i :: IsLegacyDataType(WithoutMigrationTables(rows)[j].dataType))
      && ColumnFor(WithoutMigrationTables(rows)[i], opts, select) == Err(r.error)
    ensures r.Ok? ==> r.value == BuildTables(WithoutMigrationTables(rows), opts, select)
  {
    var visible := WithoutMigrationTables(rows);
    match FirstUnknown(visible)
    case Some(i) =>
      Err(IntrospectionError(UnknownTypeMessage(visible[i].dataType, visible[i].columnName)))
    case None => Ok(BuildTables(visible, opts, select))
  }

  /** The migration tables are never listed. */
  lemma MigrationTablesLeftOut(rows: seq<ColumnRow>, opts: PoolConfig, select: ValueSelector)
    requires GetTables(rows, opts, select).Ok?
    ensures forall t | t in GetTables(rows, opts, select).value :: !IsMigrationTable(t.name)
  {
    var visible := WithoutMigrationTables(rows);
    forall t | t in GetTables(rows, opts, select).value ensures !IsMigrationTable(t.name) {
      var gs := GroupBy(visible, TableNameOf);
      var ts := GetTables(rows, opts, select).value;
      var i :| 0 <= i < |ts| && ts[i] == t;
      assert gs[i][0] in gs[i];
    }
  }

  /** Every import of the output is the named `Buffer` or `Generated`
      binding. */
  lemma TableImports(rows: seq<ColumnRow>, opts: PoolConfig, select: ValueSelector)
    requires GetTables(rows, opts, select).Ok?
    ensures forall t, col, imp |
      t in GetTables(rows, opts, select).value && col in t.columns && imp in col.tsType.imports.GetOr([]) ::
        imp == BufferImport || imp == GeneratedImport
  {
    var visible := WithoutMigrationTables(rows);
    var ts := GetTables(rows, opts, select).value;
    forall t | t in ts
      ensures forall col, imp | col in t.columns && imp in col.tsType.imports.GetOr([]) ::
        imp == BufferImport || imp == GeneratedImport
    {
      var i :| 0 <= i < |ts| && ts[i] == t;
      ColumnImports(Filter(visible, TableNameOf, t.name), opts, select);
    }
  }

  /** The same for the columns of one table. */
  lemma ColumnImports(group: seq<ColumnRow>, opts: PoolConfig, select: ValueSelector)
    requires AllKnown(group)
    ensures forall col, imp | col in TableColumns(group, opts, select) && imp in col.tsType.imports.GetOr([]) ::
      imp == BufferImport || imp == GeneratedImport
  {
    var cs := TableColumns(group, opts, select);
    forall col, imp | col in cs && imp in col.tsType.imports.GetOr([])
      ensures imp == BufferImport || imp == GeneratedImport
    {
      var j :| 0 <= j < |cs| && cs[j] == col;
      assert group[j] in group;
      LegacyImports(group[j], GetNativeText(group[j].dataType, opts).value, select);
    }
  }

  /** No two tables share a name. */
  lemma TableNamesDistinct(rows: seq<ColumnRow>, opts: PoolConfig, select: ValueSelector)
    requires GetTables(rows, opts, select).Ok?
    ensures var ts := GetTables(rows, opts, select).value;
      forall i, j | 0 <= i < j < |ts| :: ts[i].name != ts[j].name
  {
    GroupKeysDistinct(WithoutMigrationTables(rows), TableNameOf);
  }

  // ----- the column text -----

  /** A nullable column that is not generated ends in ` | null`. */
  lemma NullableText(row: ColumnRow, native: string, select: ValueSelector)
    requires row.isNullable == "YES" && !IsGenerated(row)
    ensures ColumnTsType(row, native, select).text == BaseText(row, native, select) + " | null"
  {
  }

  /** A plain known column keeps the table's text, and needs the `Buffer`
      import exactly when that text is `Buffer`. */
  lemma PlainColumnText(row: ColumnRow, opts: PoolConfig, select: ValueSelector)
    requires IsLegacyDataType(row.dataType) && row.dataType != "enum" && row.dataType != "set"
    requires row.isNullable != "YES" && !IsGenerated(row)
    ensures var t := ColumnFor(row, opts, select).value.tsType;
      && t.text == GetNativeText(row.dataType, opts).value
      && t.imports == Some(if t.text == "Buffer" then [BufferImport] else [])
  {
  }

  /** An enum column with members prints the same text as the union of
      their string literals. */
  lemma EnumTextIsLiteralUnion(values: seq<string>)
    ensures EnumText(values) == Types.Text(Types.Union(StringLiteralsOf(values)))
  {
    var ts := StringLiteralsOf(values);
    Types.CompoundText(Types.UnionOp, ts);
    assert Types.Texts(ts) == Types.QuotedValues(values);
  }

  function StringLiteralsOf(values: seq<string>): (r: seq<Types.Type>)
    ensures |r| == |values|
    ensures forall i | 0 <= i < |values| :: r[i] == Types.StringLiteral(values[i])
  {
    seq(|values|, i requires 0 <= i < |values| => Types.StringLiteral(values[i]))
  }

  // ----- the guard as written -----

  /** `TYPE_MAP[type] !== undefined` on a plain object literal: an inherited
      property is defined too. */
  predicate IsLegacyDataTypeAsWritten(s: string) {
    IsLegacyDataType(s) || s in InheritedKeys
  }

  /** A column whose data type reads `toString` passes the guard as written,
      so the intended error is never raised; the own-key guard raises it. */
  lemma InheritedKeyPassesLegacyGuard(row: ColumnRow, opts: PoolConfig, select: ValueSelector)
    requires row.dataType == "toString"
    ensures IsLegacyDataTypeAsWritten(row.dataType)
    ensures ColumnFor(row, opts, select) == Err(IntrospectionError(UnknownTypeMessage("toString", row.columnName)))
  {
    assert LegacyParse("toString") == None;
  }
}
