/** `SqliteCollector`: the tables Kysely's own SQLite introspector reports,
    typed by the affinity SQLite gives a declared column type (section 3.1
    of SQLite's "Datatypes In SQLite", "Determination Of Column Affinity"). */
module SqliteCollector {
  import opened Wrappers
  import opened Strings
  import opened Types
  import opened Imports
  import opened TypeCollector

  /** The column metadata Kysely's introspector reports. */
  datatype KyselyColumn = KyselyColumn(
    name: string,
    dataType: string,
    isAutoIncrementing: bool,
    isNullable: bool,
    hasDefaultValue: bool,
    comment: Option<string>)

  datatype KyselyTable = KyselyTable(
    name: string,
    isView: bool,
    schema: Option<string>,
    columns: seq<KyselyColumn>)

  datatype Affinity = Integer | Text | Blob | Real | Numeric

  /** The declared type as the rules read it: upper-cased and trimmed. */
  function DeclaredType(dataType: string): string {
    Trim(ToUpper(dataType))
  }

  /** `columnAffinity`: the five rules, tried in order. */
  function ColumnAffinity(dataType: string): (r: Affinity)
    ensures var d := DeclaredType(dataType);
      r == Integer <==> Contains(d, "INT")
    ensures var d := DeclaredType(dataType);
      r == Text <==> !Contains(d, "INT") && (Contains(d, "CHAR") || Contains(d, "CLOB") || Contains(d, "TEXT"))
    ensures var d := DeclaredType(dataType);
      r == Blob <==>
        && !Contains(d, "INT") && !(Contains(d, "CHAR") || Contains(d, "CLOB") || Contains(d, "TEXT"))
        && (Contains(d, "BLOB") || d == "")
    ensures var d := DeclaredType(dataType);
      r == Real <==>
        && !Contains(d, "INT") && !(Contains(d, "CHAR") || Contains(d, "CLOB") || Contains(d, "TEXT"))
        && !(Contains(d, "BLOB") || d == "")
        && (Contains(d, "REAL") || Contains(d, "FLOA") || Contains(d, "DOUB"))
  {
    var d := DeclaredType(dataType);
    IncludesIffContains(d, "INT");
    IncludesIffContains(d, "CHAR");
    IncludesIffContains(d, "CLOB");
    IncludesIffContains(d, "TEXT");
    IncludesIffContains(d, "BLOB");
    IncludesIffContains(d, "REAL");
    IncludesIffContains(d, "FLOA");
    IncludesIffContains(d, "DOUB");
    if Includes(d, "INT") then Integer
    else if Includes(d, "CHAR") || Includes(d, "CLOB") || Includes(d, "TEXT") then Text
    else if Includes(d, "BLOB") || d == "" then Blob
    else if Includes(d, "REAL") || Includes(d, "FLOA") || Includes(d, "DOUB") then Real
    else Numeric
  }

  /** The rules do not see the case of the declared type. */
  lemma AffinityIgnoresCase(dataType: string)
    ensures ColumnAffinity(ToLower(dataType)) == ColumnAffinity(dataType)
  {
    UpperOfLower(dataType);
  }

  /** `INT` anywhere wins over every later rule, even inside `POINT`. */
  lemma IntWinsEverywhere(before: string, after: string)
    requires DeclaredType(before + "INT" + after) == before + "INT" + after
    ensures ColumnAffinity(before + "INT" + after) == Integer
  {
    ContainsInfix(before, "INT", after);
  }

  /** `DATA_TYPE_MAP`. */
  function AffinityType(a: Affinity): Type {
    match a
    case Integer => Number
    case Text => String
    case Blob => Buffer
    case Real => Number
    case Numeric => Number
  }

  /** `getColumnType`: the affinity's type, made nullable, then generated
      when the column is auto-incremented or has a default. */
  function GetColumnType(col: KyselyColumn): (r: Type)
    ensures col.isAutoIncrementing || col.hasDefaultValue ==>
      r.Generated? && !IsColumnType(r.selectType)
    ensures !(col.isAutoIncrementing || col.hasDefaultValue) ==> !IsColumnType(r)
    ensures SelectTypeField(r).GetOr(r) ==
      (if col.isNullable then Nullable(AffinityType(ColumnAffinity(col.dataType)))
       else AffinityType(ColumnAffinity(col.dataType)))
  {
    var base := AffinityType(ColumnAffinity(col.dataType));
    var t := if col.isNullable then Nullable(base) else base;
    if col.isAutoIncrementing || col.hasDefaultValue then Generated(t) else t
  }

  /** The column's type before generation: the affinity's type, made
      nullable when the column is. */
  function Refined(col: KyselyColumn): Type {
    var base := AffinityType(ColumnAffinity(col.dataType));
    if col.isNullable then Nullable(base) else base
  }

  /** `null` adds no import, so the refined type needs exactly the
      affinity type's imports. */
  lemma RefinedImports(col: KyselyColumn)
    ensures ImportList(Refined(col)) == ImportList(AffinityType(ColumnAffinity(col.dataType)))
  {
    var base := AffinityType(ColumnAffinity(col.dataType));
    if col.isNullable {
      CompoundImports(UnionOp, [base, Null]);
      assert ImportListOf([base, Null]) == ImportList(base) + ImportListOf([Null]);
      assert ImportListOf([Null]) == [];
    }
  }

  const BufferImport := TypeImport("node:buffer", None, Some([Named("Buffer")]))

  /** A column needs the `Buffer` import exactly when its affinity is BLOB. */
  lemma BufferImportIffBlob(col: KyselyColumn)
    ensures BufferImport in ImportList(GetColumnType(col)) <==> ColumnAffinity(col.dataType) == Blob
  {
    RefinedImports(col);
    assert GetColumnType(col) == Refined(col) || GetColumnType(col) == Generated(Refined(col));
    assert BufferImport != KyselyImport("Generated");
  }

  /** A column needs the `Generated` import exactly when it is generated. */
  lemma GeneratedImportIffGenerated(col: KyselyColumn)
    ensures KyselyImport("Generated") in ImportList(GetColumnType(col)) <==>
      col.isAutoIncrementing || col.hasDefaultValue
  {
    RefinedImports(col);
    assert GetColumnType(col) == Refined(col) || GetColumnType(col) == Generated(Refined(col));
    assert BufferImport != KyselyImport("Generated");
  }

  /** `collectTables`: every table with its columns typed; the table keeps
      its name and schema and has no comment. */
  function CollectTables(tables: seq<KyselyTable>): (r: seq<TableMetadata>)
    ensures |r| == |tables|
    ensures forall i | 0 <= i < |tables| ::
      && r[i].name == tables[i].name
      && r[i].schema == tables[i].schema
      && r[i].comment == None
      && |r[i].columns| == |tables[i].columns|
      && forall j | 0 <= j < |tables[i].columns| ::
           r[i].columns[j] == ColumnMetadata(tables[i].columns[j].name, GetColumnType(tables[i].columns[j]), None)
  {
    seq(|tables|, i requires 0 <= i < |tables| =>
      var t := tables[i];
      TableMetadata(
        t.name,
        seq(|t.columns|, j requires 0 <= j < |t.columns| =>
          ColumnMetadata(t.columns[j].name, GetColumnType(t.columns[j]), None)),
        t.schema,
        None))
  }

  /** A declared type of nothing but white space trims to the empty
      string, which has BLOB affinity. */
  lemma BlankIsBlob(dataType: string)
    requires forall i | 0 <= i < |dataType| :: IsSpace(dataType[i])
    ensures ColumnAffinity(dataType) == Blob
  {
    var u := ToUpper(dataType);
    assert forall i | 0 <= i < |u| :: IsSpace(u[i]);
    BlankTrimsAway(u);
    assert !Contains("", "INT") && !Contains("", "CHAR") && !Contains("", "CLOB") && !Contains("", "TEXT");
  }

  lemma {:induction false} BlankTrimsAway(s: string)
    requires forall i | 0 <= i < |s| :: IsSpace(s[i])
    ensures TrimStart(s) == ""
  {
    if |s| > 0 {
      BlankTrimsAway(s[1..]);
    }
  }
}
