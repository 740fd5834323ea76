/** `MysqlTypeCollector`: the introspected MySQL columns turned into Kysely
    column types, using the driver's native mapping, the user's casts and
    JSON column types, enum members, and the column's nullability,
    generation and default. */
module MysqlCollector {
  import opened Wrappers
  import opened Strings
  import opened Types
  import opened MysqlDataTypes
  import opened MysqlIntrospector
  import opened TypeCollector

  /** `MysqlTypeOptions`; an absent map is the empty map. */
  datatype TypeOptions = TypeOptions(typeCasts: map<string, Type>, jsonColumns: map<string, Type>)

  const NoTypeOptions := TypeOptions(map[], map[])

  // ----- parseColumnType -----

  /** `parseColumnType`, with `i` the position of the first space: the whole
      text when `i` is 0 (falsy), otherwise the text from `i - 1` on. With no
      space `i` is -1, which is truthy, and `substring(-2)` is the whole text. */
  function ParseColumnType(columnType: string): string {
    var i := IndexOf(columnType, ' ');
    if i != 0 then SubstringFrom(columnType, i - 1) else columnType
  }

  /** A column type without a space is its own key. */
  lemma ParseWithoutSpace(columnType: string)
    requires ' ' !in columnType
    ensures ParseColumnType(columnType) == columnType
  {
  }

  /** A leading space also leaves the text whole (index 0 is falsy). */
  lemma ParseLeadingSpace(rest: string)
    ensures ParseColumnType(" " + rest) == " " + rest
  {
    assert (" " + rest)[0] == ' ';
  }

  /** With a space after a non-empty name, the key keeps only the name's
      last character and everything from the space on. */
  lemma ParseKeepsLastCharOfName(name: string, rest: string)
    requires |name| > 0 && ' ' !in name
    ensures ParseColumnType(name + " " + rest) == [name[|name| - 1]] + " " + rest
  {
    var ct := name + " " + rest;
    assert ct[|name|] == ' ';
    assert ct[..|name|] == name;
    assert IndexOf(ct, ' ') == |name|;
    assert ct[|name| - 1..] == [name[|name| - 1]] + " " + rest;
  }

  /** `int unsigned` is looked up as `t unsigned`; `tinyint(1)` as itself. */
  lemma ParseExamples()
    ensures ParseColumnType("int unsigned") == "t unsigned"
    ensures ParseColumnType("tinyint(1)") == "tinyint(1)"
  {
    ParseKeepsLastCharOfName("int", "unsigned");
    assert "int" + " " + "unsigned" == "int unsigned";
    assert [("int")[2]] + " " + "unsigned" == "t unsigned";
    ParseWithoutSpace("tinyint(1)");
  }

  // ----- the select type -----

  /** `typeCasts[parseColumnType(columnType)] ?? typeCasts[dataType]`. */
  function LookupCast(opts: TypeOptions, columnType: string, dataType: string): (r: Option<Type>)
    ensures ParseColumnType(columnType) in opts.typeCasts ==> r == Some(opts.typeCasts[ParseColumnType(columnType)])
    ensures ParseColumnType(columnType) !in opts.typeCasts && dataType in opts.typeCasts ==>
      r == Some(opts.typeCasts[dataType])
    ensures r.None? <==> ParseColumnType(columnType) !in opts.typeCasts && dataType !in opts.typeCasts
  {
    var key := ParseColumnType(columnType);
    if key in opts.typeCasts then Some(opts.typeCasts[key])
    else if dataType in opts.typeCasts then Some(opts.typeCasts[dataType])
    else None
  }

  /** The `jsonColumns` key of a column: `table.column`. */
  function JsonKey(table: string, column: string): string {
    table + "." + column
  }

  function StringLiterals(values: seq<string>): (r: seq<Type>)
    ensures |r| == |values|
    ensures forall i | 0 <= i < |values| :: r[i] == StringLiteral(values[i])
  {
    seq(|values|, i requires 0 <= i < |values| => StringLiteral(values[i]))
  }

  /** The non-empty member list of an enum or set column. */
  predicate HasMembers(col: MysqlColumn) {
    IsEnumOrSet(col.dataType) && col.memberValues.Some? && |col.memberValues.value| > 0
  }

  /** `#getSelectType`: a cast first, then a JSON column type, then the
      enum members, and the driver's mapping last. Only the last can fail. */
  function GetSelectType(table: string, col: MysqlColumn, opts: TypeOptions, pool: PoolConfig)
    : (r: Result<Type, DataTypeError>)
    ensures LookupCast(opts, col.columnType, col.dataType).Some? ==>
      r == Ok(LookupCast(opts, col.columnType, col.dataType).value)
    ensures r.Err? ==> r.error == UnknownDataType(col.dataType)
  {
    match LookupCast(opts, col.columnType, col.dataType)
    case Some(cast) => Ok(cast)
    case None =>
      if col.dataType == "json" && JsonKey(table, col.name) in opts.jsonColumns then
        Ok(opts.jsonColumns[JsonKey(table, col.name)])
      else if HasMembers(col) then
        Ok(Union(StringLiterals(col.memberValues.value)))
      else
        GetNativeType(col.dataType, pool)
  }

  /** Only an unknown data type fails, and only when nothing earlier
      decided the type. */
  lemma SelectTypeFailsIff(table: string, col: MysqlColumn, opts: TypeOptions, pool: PoolConfig)
    ensures GetSelectType(table, col, opts, pool).Err? <==>
      && LookupCast(opts, col.columnType, col.dataType).None?
      && !(col.dataType == "json" && JsonKey(table, col.name) in opts.jsonColumns)
      && !HasMembers(col)
      && !IsDataType(col.dataType)
  {
  }

  /** Without a cast or JSON type, a non-empty member list gives the union
      of its string literals. */
  lemma MembersSelected(table: string, col: MysqlColumn, opts: TypeOptions, pool: PoolConfig)
    requires LookupCast(opts, col.columnType, col.dataType).None? && HasMembers(col)
    ensures GetSelectType(table, col, opts, pool) == Ok(Union(StringLiterals(col.memberValues.value)))
  {
  }

  /** Without casts, JSON types or members, the select type is the driver's
      native type. */
  lemma SelectTypeFallsBackToNative(table: string, col: MysqlColumn, pool: PoolConfig)
    requires !HasMembers(col)
    requires IsDataType(col.dataType)
    ensures GetSelectType(table, col, NoTypeOptions, pool) == Ok(NativeType(Parse(col.dataType).value, pool))
  {
  }

  /** String literals never nest a union, so the member union renders as
      the quoted values joined by ` | `. */
  lemma MemberUnionText(values: seq<string>)
    ensures Text(Union(StringLiterals(values))) == Join(QuotedValues(values), " | ")
  {
    var ts := StringLiterals(values);
    CompoundText(UnionOp, ts);
    assert Texts(ts) == QuotedValues(values);
  }

  // ----- the column type -----

  /** The select type after the nullable refinement. */
  function Refined(select: Type, col: MysqlColumn): Type {
    if col.isNullable then Nullable(select) else select
  }

  /** Whether `#getType` adds a wrapper of its own. */
  predicate AddsWrapper(select: Type, col: MysqlColumn) {
    !IsColumnType(Refined(select, col)) &&
    (col.isVirtual || col.isAutoIncrementing || col.dataType == "json" || col.hasDefaultValue)
  }

  /** The refinements of `#getType`, from an already computed select type. */
  function Refine(select: Type, col: MysqlColumn): (t: Type)
    ensures !AddsWrapper(select, col) ==> t == Refined(select, col)
    ensures AddsWrapper(select, col) ==> IsColumnType(t) && t.selectType == Refined(select, col)
  {
    var t := Refined(select, col);
    if IsColumnType(t) then t
    else if col.isVirtual then GeneratedAlways(t)
    else if col.isAutoIncrementing then Generated(t)
    else if col.dataType == "json" then
      JSONColumnType(t, if col.hasDefaultValue then Some(Optional(String)) else None, None)
    else if col.hasDefaultValue then Generated(t)
    else t
  }

  /** `#getType`. */
  function GetType(table: string, col: MysqlColumn, opts: TypeOptions, pool: PoolConfig)
    : (r: Result<Type, DataTypeError>)
    ensures r.Ok? <==> GetSelectType(table, col, opts, pool).Ok?
    ensures r.Ok? ==> r.value == Refine(GetSelectType(table, col, opts, pool).value, col)
    ensures r.Err? ==> r == GetSelectType(table, col, opts, pool).PropagateFailure()
  {
    var select :- GetSelectType(table, col, opts, pool);
    Ok(Refine(select, col))
  }

  /** A virtual column is always generated, whatever else it is. */
  lemma VirtualIsGeneratedAlways(select: Type, col: MysqlColumn)
    requires !IsColumnType(select) && col.isVirtual
    ensures Refine(select, col) == GeneratedAlways(Refined(select, col))
  {
    NullableIsNotWrapper(select);
  }

  /** Auto-increment is checked before JSON: an auto-incremented JSON
      column is `Generated`, not a JSON column type. */
  lemma AutoIncrementBeforeJson(select: Type, col: MysqlColumn)
    requires !IsColumnType(select) && !col.isVirtual && col.isAutoIncrementing && col.dataType == "json"
    ensures Refine(select, col) == Generated(Refined(select, col))
  {
    NullableIsNotWrapper(select);
  }

  /** A JSON column inserts as `string`, or `string | undefined` when it has
      a default. */
  lemma JsonInsertType(select: Type, col: MysqlColumn)
    requires !IsColumnType(select) && !col.isVirtual && !col.isAutoIncrementing && col.dataType == "json"
    ensures col.hasDefaultValue ==> Refine(select, col) == JSONColumnType(Refined(select, col), Some(Optional(String)), None)
    ensures !col.hasDefaultValue ==> Refine(select, col) == JSONColumnType(Refined(select, col), None, None)
  {
    NullableIsNotWrapper(select);
  }

  /** A cast to a column type on a non-nullable column is kept as is. */
  lemma CastColumnTypeKept(select: Type, col: MysqlColumn)
    requires IsColumnType(select) && !col.isNullable
    ensures Refine(select, col) == select
  {
  }

  /** On a nullable column the union with `null` hides a cast column type
      from the wrapper test, so a default wraps it once more. */
  lemma NullableCastWrappedAgain(select: Type, col: MysqlColumn)
    requires IsColumnType(select) && col.isNullable && col.hasDefaultValue
    requires !col.isVirtual && !col.isAutoIncrementing && col.dataType != "json"
    ensures Refine(select, col) == Generated(Nullable(select))
  {
  }

  /** A plain column without generation or default keeps its select type. */
  lemma PlainColumnUnwrapped(select: Type, col: MysqlColumn)
    requires !col.isVirtual && !col.isAutoIncrementing && col.dataType != "json" && !col.hasDefaultValue
    ensures Refine(select, col) == Refined(select, col)
  {
  }

  /** Without a cast, JSON type or member list the driver's mapping decides. */
  lemma NativeSelected(table: string, col: MysqlColumn, opts: TypeOptions, pool: PoolConfig)
    requires LookupCast(opts, col.columnType, col.dataType).None?
    requires col.dataType != "json" && !HasMembers(col)
    ensures GetSelectType(table, col, opts, pool) == GetNativeType(col.dataType, pool)
  {
  }

  /** The column type is the refinement of whatever the select type is. */
  lemma TypeOfSelected(table: string, col: MysqlColumn, opts: TypeOptions, pool: PoolConfig, select: Type)
    requires GetSelectType(table, col, opts, pool) == Ok(select)
    ensures GetType(table, col, opts, pool) == Ok(Refine(select, col))
  {
  }

  // ----- collectTables -----

  /** The columns of one table, stopping at the first failure. */
  function CollectColumns(table: string, cols: seq<MysqlColumn>, opts: TypeOptions, pool: PoolConfig)
    : (r: Result<seq<ColumnMetadata>, DataTypeError>)
    ensures r.Ok? <==> forall c | c in cols :: GetType(table, c, opts, pool).Ok?
    ensures r.Ok? ==> |r.value| == |cols| && forall i | 0 <= i < |cols| ::
      r.value[i] == ColumnMetadata(cols[i].name, GetType(table, cols[i], opts, pool).value, cols[i].comment)
    ensures r.Err? ==> exists i | 0 <= i < |cols| ::
      && (forall j | 0 <= j < i :: GetType(table, cols[j], opts, pool).Ok?)
      && GetType(table, cols[i], opts, pool) == Err(r.error)
  {
    if |cols| == 0 then Ok([])
    else
      var t :- GetType(table, cols[0], opts, pool);
      var rest := CollectColumns(table, cols[1..], opts, pool);
      if rest.Err? then
        FirstFailureShift(table, cols, opts, pool, rest.error);
        Err(rest.error)
      else
        assert forall c | c in cols :: c == cols[0] || c in cols[1..];
        Ok([ColumnMetadata(cols[0].name, t, cols[0].comment)] + rest.value)
  }

  /** A first failure in the tail, after a head that succeeds, is the first
      failure of the whole list. */
  lemma FirstFailureShift(table: string, cols: seq<MysqlColumn>, opts: TypeOptions, pool: PoolConfig, e: DataTypeError)
    requires |cols| > 0 && GetType(table, cols[0], opts, pool).Ok?
    requires exists i | 0 <= i < |cols[1..]| ::
      && (forall j | 0 <= j < i :: GetType(table, cols[1..][j], opts, pool).Ok?)
      && GetType(table, cols[1..][i], opts, pool) == Err(e)
    ensures exists i | 0 <= i < |cols| ::
      && (forall j | 0 <= j < i :: GetType(table, cols[j], opts, pool).Ok?)
      && GetType(table, cols[i], opts, pool) == Err(e)
  {
    var i :| 0 <= i < |cols[1..]| &&
      (forall j | 0 <= j < i :: GetType(table, cols[1..][j], opts, pool).Ok?) &&
      GetType(table, cols[1..][i], opts, pool) == Err(e);
    assert GetType(table, cols[i + 1], opts, pool) == Err(e);
    forall j | 0 <= j < i + 1 ensures GetType(table, cols[j], opts, pool).Ok? {
      if j > 0 {
        assert cols[j] == cols[1..][j - 1];
      }
    }
  }

  /** `collectTables`: the introspected tables with every column typed; the
      first column whose data type is unknown aborts the whole run. */
  function CollectTables(tables: seq<MysqlTable>, opts: TypeOptions, pool: PoolConfig)
    : (r: Result<seq<TableMetadata>, DataTypeError>)
    ensures r.Ok? <==> forall t | t in tables :: CollectColumns(t.name, t.columns, opts, pool).Ok?
    ensures r.Ok? ==> |r.value| == |tables| && forall i | 0 <= i < |tables| ::
      r.value[i] == TableMetadata(
        tables[i].name,
        CollectColumns(tables[i].name, tables[i].columns, opts, pool).value,
        Some(tables[i].schema),
        tables[i].comment)
  {
    if |tables| == 0 then Ok([])
    else
      var t := tables[0];
      var cols :- CollectColumns(t.name, t.columns, opts, pool);
      var rest :- CollectTables(tables[1..], opts, pool);
      ConsMembers(tables);
      Ok([TableMetadata(t.name, cols, Some(t.schema), t.comment)] + rest)
  }

  /** A failing run reports the error of the first table whose columns
      fail. */
  lemma {:induction false} CollectTablesFirstFailure(tables: seq<MysqlTable>, opts: TypeOptions, pool: PoolConfig)
    requires CollectTables(tables, opts, pool).Err?
    ensures exists i | 0 <= i < |tables| ::
      && (forall j | 0 <= j < i :: CollectColumns(tables[j].name, tables[j].columns, opts, pool).Ok?)
      && CollectColumns(tables[i].name, tables[i].columns, opts, pool) == Err(CollectTables(tables, opts, pool).error)
    decreases |tables|
  {
    var e := CollectTables(tables, opts, pool).error;
    var t := tables[0];
    if CollectColumns(t.name, t.columns, opts, pool).Err? {
      assert CollectColumns(tables[0].name, tables[0].columns, opts, pool) == Err(e);
    } else {
      assert CollectTables(tables[1..], opts, pool) == Err(e);
      CollectTablesFirstFailure(tables[1..], opts, pool);
      TableFailureShift(tables, opts, pool, e);
    }
  }

  /** A first failing table in the tail, after a head that succeeds, is the
      first failing table of the whole list. */
  lemma TableFailureShift(tables: seq<MysqlTable>, opts: TypeOptions, pool: PoolConfig, e: DataTypeError)
    requires |tables| > 0 && CollectColumns(tables[0].name, tables[0].columns, opts, pool).Ok?
    requires exists i | 0 <= i < |tables[1..]| ::
      && (forall j | 0 <= j < i :: CollectColumns(tables[1..][j].name, tables[1..][j].columns, opts, pool).Ok?)
      && CollectColumns(tables[1..][i].name, tables[1..][i].columns, opts, pool) == Err(e)
    ensures exists i | 0 <= i < |tables| ::
      && (forall j | 0 <= j < i :: CollectColumns(tables[j].name, tables[j].columns, opts, pool).Ok?)
      && CollectColumns(tables[i].name, tables[i].columns, opts, pool) == Err(e)
  {
    var i :| 0 <= i < |tables[1..]|
      && (forall j | 0 <= j < i :: CollectColumns(tables[1..][j].name, tables[1..][j].columns, opts, pool).Ok?)
      && CollectColumns(tables[1..][i].name, tables[1..][i].columns, opts, pool) == Err(e);
    assert tables[i + 1] == tables[1..][i];
    forall j | 0 <= j < i + 1 ensures CollectColumns(tables[j].name, tables[j].columns, opts, pool).Ok? {
      if j > 0 {
        assert tables[j] == tables[1..][j - 1];
      }
    }
  }

  lemma ConsMembers<T>(xs: seq<T>)
    requires |xs| > 0
    ensures forall x :: x in xs <==> x == xs[0] || x in xs[1..]
  {
    assert xs == [xs[0]] + xs[1..];
  }
}
