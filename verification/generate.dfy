/** `collectTypes` of `src/generate.ts`: the table metadata turned into the
    declarations of the generated module. A `Database` interface with one
    property per table, then per table an interface of its columns and the
    three row types Kysely derives from it; the imports all columns need go
    in front. */
module Generate {
  import opened Wrappers
  import opened Imports
  import opened Printing
  import opened Introspector
  import LegacyIntrospector
  import InformationSchema
  import Grouping
  import MysqlDataTypes
  import LegacyDataTypes

  /** `classify` of the inflection library, which turns a table name into a
      class name. It is a parameter of the model. */
  type Classifier = string -> string

  /** One step of a fold over the import collection that may fail. */
  type ImportStep<-T> = (ImportCollection, T) -> Result<ImportCollection, ImportError>

  /** A left fold that stops at the first failure, as a `throw` inside a
      `for` loop does. */
  function FoldImports<T>(c: ImportCollection, xs: seq<T>, step: ImportStep<T>): Result<ImportCollection, ImportError>
    decreases |xs|
  {
    if |xs| == 0 then Ok(c)
    else
      var c1 :- FoldImports(c, xs[..|xs| - 1], step);
      step(c1, xs[|xs| - 1])
  }

  /** Once a prefix fails, the whole fold fails with the same error. */
  lemma {:induction false} FoldStopsAtFailure<T>(c: ImportCollection, xs: seq<T>, step: ImportStep<T>, k: nat)
    requires k <= |xs|
    requires FoldImports(c, xs[..k], step).Err?
    ensures FoldImports(c, xs, step) == FoldImports(c, xs[..k], step)
    decreases |xs| - k
  {
    if k < |xs| {
      assert xs[..k + 1][..k] == xs[..k];
      FoldStopsAtFailure(c, xs, step, k + 1);
    } else {
      assert xs[..k] == xs;
    }
  }

  /** A fold whose every step succeeds, from every collection, succeeds. */
  lemma {:induction false} FoldNeverFails<T>(c: ImportCollection, xs: seq<T>, step: ImportStep<T>)
    requires forall c1: ImportCollection, x | x in xs :: step(c1, x).Ok?
    ensures FoldImports(c, xs, step).Ok?
    decreases |xs|
  {
    if |xs| > 0 {
      var init := xs[..|xs| - 1];
      assert forall x | x in init :: x in xs;
      FoldNeverFails(c, init, step);
      assert xs[|xs| - 1] in xs;
    }
  }

  /** `if (tsType.imports) imports.add(...tsType.imports)`. */
  function AddColumn(c: ImportCollection, col: ColumnMetadata): Result<ImportCollection, ImportError> {
    if col.tsType.imports.Some? then Add(c, col.tsType.imports.value) else Ok(c)
  }

  const RowTypeHelpers: seq<string> := ["Selectable", "Insertable", "Updateable"]

  /** The imports of one table: every column's, then the three helpers
      from `kysely`, one `addNamed` each. */
  function AddTable(c: ImportCollection, t: TableMetadata): Result<ImportCollection, ImportError> {
    var c1 :- FoldImports(c, t.columns, AddColumn);
    Ok(AddHelpers(c1))
  }

  /** `addNamed("kysely", …)` for each row type helper in turn. */
  function AddHelpers(c: ImportCollection): ImportCollection {
    AddNamed(AddNamed(AddNamed(c, "kysely", [Named("Selectable")]),
      "kysely", [Named("Insertable")]), "kysely", [Named("Updateable")])
  }

  function CollectImports(tables: seq<TableMetadata>): Result<ImportCollection, ImportError> {
    FoldImports(Empty, tables, AddTable)
  }

  function TableTypeName(t: TableMetadata, classify: Classifier): string {
    classify(t.name) + "Table"
  }

  /** One interface property per column: its name, type text and comment. */
  function ColumnProperties(cols: seq<ColumnMetadata>): (ps: seq<PropertySignature>)
    ensures |ps| == |cols|
    ensures forall j | 0 <= j < |cols| ::
      ps[j].name == cols[j].name && ps[j].typeText == cols[j].tsType.text && ps[j].comment == cols[j].comment
  {
    seq(|cols|, j requires 0 <= j < |cols| =>
      PropertySignature(cols[j].name, cols[j].tsType.text, cols[j].comment))
  }

  /** The four declarations of a table: its interface, carrying the table's
      comment, and the `Selectable`, `Insertable` and `Updateable` types. */
  function TableDeclarations(t: TableMetadata, classify: Classifier): (ds: seq<Declaration>)
    ensures |ds| == 4
    ensures ds[0] == InterfaceDecl(classify(t.name) + "Table", ColumnProperties(t.columns), t.comment)
    ensures forall k | 1 <= k < 4 ::
      ds[k].TypeDecl? && ds[k].comment == None
      && ds[k].typeText == RowTypeHelpers[k - 1] + "<" + classify(t.name) + "Table>"
    ensures ds[1].name == classify(t.name)
    ensures ds[2].name == "New" + classify(t.name)
    ensures ds[3].name == classify(t.name) + "Update"
  {
    var c := classify(t.name);
    var table := TableTypeName(t, classify);
    [ InterfaceDecl(table, ColumnProperties(t.columns), t.comment),
      TypeDecl(c, "Selectable<" + table + ">", None),
      TypeDecl("New" + c, "Insertable<" + table + ">", None),
      TypeDecl(c + "Update", "Updateable<" + table + ">", None) ]
  }

  /** The table declarations in table order. */
  function Body(tables: seq<TableMetadata>, classify: Classifier): (ds: seq<Declaration>)
    ensures |ds| == 4 * |tables|
    decreases |tables|
  {
    if |tables| == 0 then []
    else Body(tables[..|tables| - 1], classify) + TableDeclarations(tables[|tables| - 1], classify)
  }

  /** The `Database` properties: each table's name, typed by its interface. */
  function DatabaseProperties(tables: seq<TableMetadata>, classify: Classifier): (ps: seq<PropertySignature>)
    ensures |ps| == |tables|
    ensures forall i | 0 <= i < |tables| ::
      ps[i] == PropertySignature(tables[i].name, classify(tables[i].name) + "Table", None)
  {
    seq(|tables|, i requires 0 <= i < |tables| =>
      PropertySignature(tables[i].name, TableTypeName(tables[i], classify), None))
  }

  /** Extending the prefix of tables by one extends each of the three
      results by that table's part. */
  lemma PrefixStep(tables: seq<TableMetadata>, i: nat, classify: Classifier)
    requires i < |tables|
    ensures CollectImports(tables[..i + 1]) ==
      (var c :- CollectImports(tables[..i]); AddTable(c, tables[i]))
    ensures DatabaseProperties(tables[..i + 1], classify) ==
      DatabaseProperties(tables[..i], classify) + [PropertySignature(tables[i].name, classify(tables[i].name) + "Table", None)]
    ensures Body(tables[..i + 1], classify) == Body(tables[..i], classify) + TableDeclarations(tables[i], classify)
  {
    var prefix := tables[..i + 1];
    assert prefix[..i] == tables[..i] && prefix[i] == tables[i];
    assert prefix == tables[..i] + [tables[i]];
    DatabasePropertiesSnoc(tables[..i], tables[i], classify);
  }

  lemma DatabasePropertiesSnoc(tables: seq<TableMetadata>, t: TableMetadata, classify: Classifier)
    ensures DatabaseProperties(tables + [t], classify) ==
      DatabaseProperties(tables, classify) + [PropertySignature(t.name, classify(t.name) + "Table", None)]
  {
    var l := DatabaseProperties(tables + [t], classify);
    var r := DatabaseProperties(tables, classify) + [PropertySignature(t.name, classify(t.name) + "Table", None)];
    assert forall i | 0 <= i < |tables| :: (tables + [t])[i] == tables[i];
    assert |l| == |r|;
    assert forall i | 0 <= i < |l| :: l[i] == r[i];
  }

  function DatabaseDecl(tables: seq<TableMetadata>, classify: Classifier): Declaration {
    InterfaceDecl("Database", DatabaseProperties(tables, classify), None)
  }

  function ImportDecls(imps: seq<TypeImport>): (ds: seq<Declaration>)
    ensures |ds| == |imps|
    ensures forall i | 0 <= i < |imps| :: ds[i] == ImportDecl(imps[i])
  {
    seq(|imps|, i requires 0 <= i < |imps| => ImportDecl(imps[i]))
  }

  /** `collectTypes`: the imports' snapshot, then `Database`, then the
      declarations of every table; it throws when two imports clash. */
  function CollectTypes(tables: seq<TableMetadata>, classify: Classifier)
    : (r: Result<seq<Declaration>, ImportError>)
    ensures r.Ok? <==> CollectImports(tables).Ok?
    ensures r.Err? ==> r.error == CollectImports(tables).error
  {
    var c :- CollectImports(tables);
    Ok(ImportDecls(Values(c)) + [DatabaseDecl(tables, classify)] + Body(tables, classify))
  }

  // ----- the shape of the output -----

  /** The declarations of table `i` sit at positions `4i` to `4i + 3`. */
  lemma {:induction false} BodyAt(tables: seq<TableMetadata>, classify: Classifier, i: nat, k: nat)
    requires i < |tables| && k < 4
    ensures Body(tables, classify)[4 * i + k] == TableDeclarations(tables[i], classify)[k]
    decreases |tables|
  {
    var init := tables[..|tables| - 1];
    if i < |init| {
      BodyAt(init, classify, i, k);
      assert init[i] == tables[i];
    }
  }

  /** The output is the import snapshot, then `Database`, then four
      declarations per table. */
  lemma CollectTypesLayout(tables: seq<TableMetadata>, classify: Classifier)
    requires CollectTypes(tables, classify).Ok?
    ensures var ds := CollectTypes(tables, classify).value;
      var imps := Values(CollectImports(tables).value);
      && |ds| == |imps| + 1 + 4 * |tables|
      && (forall n | 0 <= n < |imps| :: ds[n] == ImportDecl(imps[n]))
      && ds[|imps|] == InterfaceDecl("Database", DatabaseProperties(tables, classify), None)
  {
    var imps := Values(CollectImports(tables).value);
    var ds := CollectTypes(tables, classify).value;
    var head := ImportDecls(imps) + [DatabaseDecl(tables, classify)];
    CollectTypesParts(tables, classify);
    assert forall n | 0 <= n <= |imps| :: ds[n] == head[n];
  }

  /** Table `i` owns the four declarations after `Database` at offset `4i`. */
  lemma TablesInOrder(tables: seq<TableMetadata>, classify: Classifier, i: nat, k: nat)
    requires CollectTypes(tables, classify).Ok?
    requires i < |tables| && k < 4
    ensures var ds := CollectTypes(tables, classify).value;
      var imps := Values(CollectImports(tables).value);
      |imps| + 1 + 4 * i + k < |ds| &&
      ds[|imps| + 1 + 4 * i + k] == TableDeclarations(tables[i], classify)[k]
  {
    var imps := Values(CollectImports(tables).value);
    var ds := CollectTypes(tables, classify).value;
    var head := ImportDecls(imps) + [DatabaseDecl(tables, classify)];
    assert ds == head + Body(tables, classify);
    BodyAt(tables, classify, i, k);
  }

  lemma {:induction false} BodyPrintable(tables: seq<TableMetadata>, classify: Classifier)
    ensures forall d | d in Body(tables, classify) :: d.TypeDecl? || d.InterfaceDecl?
    decreases |tables|
  {
    if |tables| > 0 {
      BodyPrintable(tables[..|tables| - 1], classify);
    }
  }

  /** Without tables the module holds only an empty `Database`. */
  lemma NoTablesOnlyDatabase(classify: Classifier)
    ensures CollectTypes([], classify) == Ok([InterfaceDecl("Database", [], None)])
  {
    assert CollectImports([]) == Ok(Empty);
    assert Values(Empty) == [];
    assert ImportDecls([]) == [];
    assert Body([], classify) == [];
    assert DatabaseProperties([], classify) == [];
    var db := DatabaseDecl([], classify);
    assert db == InterfaceDecl("Database", [], None);
    assert CollectTypes([], classify) == Ok([] + [db] + []);
    assert [] + [db] + [] == [db];
  }

  /** Every declaration of the output has a kind the printer knows, so
      printing it never fails. */
  lemma GeneratedModulePrints(p: Printer, tables: seq<TableMetadata>, classify: Classifier)
    requires CollectTypes(tables, classify).Ok?
    ensures Print(p, CollectTypes(tables, classify).value).Ok?
  {
    GeneratedKindsKnown(tables, classify);
    PrintLayout(p, CollectTypes(tables, classify).value);
  }

  /** The output holds imports, interfaces and type aliases only. */
  lemma GeneratedKindsKnown(tables: seq<TableMetadata>, classify: Classifier)
    requires CollectTypes(tables, classify).Ok?
    ensures forall d | d in CollectTypes(tables, classify).value :: Printable(d)
  {
    var decls := ImportDecls(Values(CollectImports(tables).value));
    CollectTypesParts(tables, classify);
    forall d | d in decls ensures Printable(d) {
      var n :| 0 <= n < |decls| && decls[n] == d;
    }
    PrintableConcat(decls, [DatabaseDecl(tables, classify)]);
    BodyPrintable(tables, classify);
    PrintableConcat(decls + [DatabaseDecl(tables, classify)], Body(tables, classify));
  }

  lemma CollectTypesParts(tables: seq<TableMetadata>, classify: Classifier)
    requires CollectTypes(tables, classify).Ok?
    ensures CollectTypes(tables, classify).value ==
      ImportDecls(Values(CollectImports(tables).value)) + [DatabaseDecl(tables, classify)] + Body(tables, classify)
  {
  }

  lemma PrintableConcat(a: seq<Declaration>, b: seq<Declaration>)
    requires forall d | d in a :: Printable(d)
    requires forall d | d in b :: Printable(d)
    ensures forall d | d in a + b :: Printable(d)
  {
  }

  // ----- the helper imports -----

  /** A fold whose every step keeps the collection well formed keeps it
      well formed. */
  lemma {:induction false} FoldKeepsValid<T>(c: ImportCollection, xs: seq<T>, step: ImportStep<T>)
    requires Valid(c)
    requires forall c1: ImportCollection, x | Valid(c1) && step(c1, x).Ok? :: Valid(step(c1, x).value)
    ensures FoldImports(c, xs, step).Ok? ==> Valid(FoldImports(c, xs, step).value)
    decreases |xs|
  {
    if |xs| > 0 {
      FoldKeepsValid(c, xs[..|xs| - 1], step);
    }
  }

  lemma CollectImportsValid(tables: seq<TableMetadata>)
    requires CollectImports(tables).Ok?
    ensures Valid(CollectImports(tables).value)
  {
    forall c1: ImportCollection, t: TableMetadata | Valid(c1) && AddTable(c1, t).Ok?
      ensures Valid(AddTable(c1, t).value)
    {
      FoldKeepsValid(c1, t.columns, AddColumn);
    }
    EmptyValid();
    FoldKeepsValid(Empty, tables, AddTable);
  }

  /** As soon as there is a table, the module imports `Selectable`,
      `Insertable` and `Updateable` from `kysely`. */
  lemma HelpersImported(tables: seq<TableMetadata>, classify: Classifier)
    requires |tables| > 0 && CollectTypes(tables, classify).Ok?
    ensures exists imp | imp in Values(CollectImports(tables).value) ::
      && imp.moduleSpecifier == "kysely" && imp.namedBindings.Some?
      && forall h | h in RowTypeHelpers :: Named(h) in imp.namedBindings.value
  {
    var c := CollectImports(tables).value;
    CollectImportsValid(tables);
    var before := CollectImports(tables[..|tables| - 1]).value;
    var columns := FoldImports(before, tables[|tables| - 1].columns, AddColumn).value;
    assert c == AddHelpers(columns);
    HelperBindings(columns);
    assert "kysely" in c.order && Visible(Lookup(c, "kysely"));
    assert Snapshot("kysely", Lookup(c, "kysely")) in Values(c);
  }

  lemma HelperBindings(c: ImportCollection)
    ensures var r := AddHelpers(c);
      && "kysely" in r.entries && r.entries["kysely"].namedBindings.Some?
      && forall h | h in RowTypeHelpers :: Named(h) in Bindings(r, "kysely")
  {
    var c1 := AddNamed(c, "kysely", [Named("Selectable")]);
    var c2 := AddNamed(c1, "kysely", [Named("Insertable")]);
    assert Named("Selectable") in Bindings(c2, "kysely");
  }

  // ----- every column's imports are merged -----

  /** A fold whose every step keeps what it had and holds what its item
      wants ends holding what every item wants. */
  lemma {:induction false} FoldMerges<T>(c: ImportCollection, xs: seq<T>, step: ImportStep<T>, wants: (T, TypeImport) -> bool)
    requires FoldImports(c, xs, step).Ok?
    requires forall c1: ImportCollection, x | x in xs && step(c1, x).Ok? ::
      Keeps(c1, step(c1, x).value) && forall imp | wants(x, imp) :: Holds(step(c1, x).value, imp)
    ensures Keeps(c, FoldImports(c, xs, step).value)
    ensures forall x, imp | x in xs && wants(x, imp) :: Holds(FoldImports(c, xs, step).value, imp)
    decreases |xs|
  {
    if |xs| == 0 {
      assert Keeps(c, c);
    } else {
      var init := xs[..|xs| - 1];
      var last := xs[|xs| - 1];
      assert forall x | x in init :: x in xs;
      assert last in xs;
      FoldMerges(c, init, step, wants);
      var c1 := FoldImports(c, init, step).value;
      var r := FoldImports(c, xs, step).value;
      assert step(c1, last) == Ok(r);
      KeepsTransitive(c, c1, r);
      forall x, imp | x in xs && wants(x, imp) ensures Holds(r, imp) {
        if x != last {
          assert x in init by {
            assert xs == init + [last];
          }
          HoldsKept(c1, r, imp);
        }
      }
    }
  }

  /** The imports a column asks for. */
  predicate ColumnWants(col: ColumnMetadata, imp: TypeImport) {
    imp in col.tsType.imports.GetOr([])
  }

  /** The imports some column of a table asks for. */
  ghost predicate TableWants(t: TableMetadata, imp: TypeImport) {
    exists col | col in t.columns :: ColumnWants(col, imp)
  }

  lemma AddColumnMerges(c: ImportCollection, col: ColumnMetadata)
    requires AddColumn(c, col).Ok?
    ensures Keeps(c, AddColumn(c, col).value)
    ensures forall imp | ColumnWants(col, imp) :: Holds(AddColumn(c, col).value, imp)
  {
    if col.tsType.imports.Some? {
      AddMergesEveryImport(c, col.tsType.imports.value);
    }
  }

  /** One table: its columns' imports are merged, then the helpers added,
      which take nothing away. */
  lemma AddTableMerges(c: ImportCollection, t: TableMetadata)
    requires AddTable(c, t).Ok?
    ensures Keeps(c, AddTable(c, t).value)
    ensures forall imp | TableWants(t, imp) :: Holds(AddTable(c, t).value, imp)
  {
    forall c1: ImportCollection, col | col in t.columns && AddColumn(c1, col).Ok?
      ensures Keeps(c1, AddColumn(c1, col).value)
      ensures forall imp | ColumnWants(col, imp) :: Holds(AddColumn(c1, col).value, imp)
    {
      AddColumnMerges(c1, col);
    }
    FoldMerges(c, t.columns, AddColumn, ColumnWants);
    var c1 := FoldImports(c, t.columns, AddColumn).value;
    var c2 := AddNamed(c1, "kysely", [Named("Selectable")]);
    var c3 := AddNamed(c2, "kysely", [Named("Insertable")]);
    var r := AddNamed(c3, "kysely", [Named("Updateable")]);
    assert AddTable(c, t) == Ok(r);
    AddNamedKeeps(c1, "kysely", [Named("Selectable")]);
    AddNamedKeeps(c2, "kysely", [Named("Insertable")]);
    AddNamedKeeps(c3, "kysely", [Named("Updateable")]);
    KeepsTransitive(c1, c2, c3);
    KeepsTransitive(c1, c3, r);
    KeepsTransitive(c, c1, r);
    forall imp | TableWants(t, imp) ensures Holds(r, imp) {
      var col :| col in t.columns && ColumnWants(col, imp);
      HoldsKept(c1, r, imp);
    }
  }

  /** After a successful run the collection holds every binding and every
      truthy default any column of any table asked for. */
  lemma CollectImportsHoldsColumns(tables: seq<TableMetadata>)
    requires CollectImports(tables).Ok?
    ensures forall t, col, imp | t in tables && col in t.columns && ColumnWants(col, imp) ::
      Holds(CollectImports(tables).value, imp)
  {
    forall c1: ImportCollection, t | t in tables && AddTable(c1, t).Ok?
      ensures Keeps(c1, AddTable(c1, t).value)
      ensures forall imp | TableWants(t, imp) :: Holds(AddTable(c1, t).value, imp)
    {
      AddTableMerges(c1, t);
    }
    FoldMerges(Empty, tables, AddTable, TableWants);
    var r := CollectImports(tables).value;
    forall t, col, imp | t in tables && col in t.columns && ColumnWants(col, imp) ensures Holds(r, imp) {
      assert TableWants(t, imp);
    }
  }

  /** `collectTypes` merges the imports of every column: for each import a
      column asks for that has a binding or a truthy default, the import
      declarations hold the one for its module, with all of its bindings
      and with its default. */
  lemma ColumnImportsMerged(tables: seq<TableMetadata>, classify: Classifier)
    requires CollectTypes(tables, classify).Ok?
    ensures var c := CollectImports(tables).value;
      forall t, col, imp |
        && t in tables && col in t.columns && ColumnWants(col, imp)
        && (Truthy(imp.defaultImport) || imp.namedBindings.GetOr([]) != []) ::
          var v := Snapshot(imp.moduleSpecifier, Lookup(c, imp.moduleSpecifier));
          && v in Values(c)
          && (forall x | x in imp.namedBindings.GetOr([]) :: x in v.namedBindings.GetOr([]))
          && (Truthy(imp.defaultImport) ==> v.defaultImport == imp.defaultImport)
  {
    var c := CollectImports(tables).value;
    CollectImportsValid(tables);
    CollectImportsHoldsColumns(tables);
    forall t, col, imp |
      && t in tables && col in t.columns && ColumnWants(col, imp)
      && (Truthy(imp.defaultImport) || imp.namedBindings.GetOr([]) != [])
      ensures var v := Snapshot(imp.moduleSpecifier, Lookup(c, imp.moduleSpecifier));
        && v in Values(c)
        && (forall x | x in imp.namedBindings.GetOr([]) :: x in v.namedBindings.GetOr([]))
        && (Truthy(imp.defaultImport) ==> v.defaultImport == imp.defaultImport)
    {
      HeldImportInValues(c, imp);
    }
  }

  // ----- failure -----

  /** No import of any column asks for a default import. */
  predicate NoDefaultImports(tables: seq<TableMetadata>) {
    forall t, col, imp | t in tables && col in t.columns && imp in col.tsType.imports.GetOr([]) ::
      !Truthy(imp.defaultImport)
  }

  lemma AddWithoutDefaults(c: ImportCollection, imps: seq<TypeImport>)
    requires forall imp | imp in imps :: !Truthy(imp.defaultImport)
    ensures Add(c, imps).Ok?
  {
    AddFailsIffConflict(c, imps);
    assert DefaultsConsistent(c, imps) by {
      forall i | 0 <= i < |imps| ensures !Truthy(imps[i].defaultImport) {
        assert imps[i] in imps;
      }
    }
  }

  /** Only a default import can clash, so without one `collectTypes` never
      throws. */
  lemma NoDefaultsNoFailure(tables: seq<TableMetadata>, classify: Classifier)
    requires NoDefaultImports(tables)
    ensures CollectTypes(tables, classify).Ok?
  {
    forall c1: ImportCollection, t | t in tables ensures AddTable(c1, t).Ok? {
      forall c2: ImportCollection, col | col in t.columns ensures AddColumn(c2, col).Ok? {
        if col.tsType.imports.Some? {
          AddWithoutDefaults(c2, col.tsType.imports.value);
        }
      }
      FoldNeverFails(c1, t.columns, AddColumn);
    }
    FoldNeverFails(Empty, tables, AddTable);
  }

  /** The legacy MySQL introspector only asks for the named `Buffer` and
      `Generated` imports, so whatever it returns generates. */
  lemma LegacyTablesGenerate(rows: seq<InformationSchema.ColumnRow>, opts: MysqlDataTypes.PoolConfig,
                             select: InformationSchema.ValueSelector, classify: Classifier)
    requires LegacyIntrospector.GetTables(rows, opts, select).Ok?
    ensures CollectTypes(LegacyIntrospector.GetTables(rows, opts, select).value, classify).Ok?
  {
    var ts := LegacyIntrospector.GetTables(rows, opts, select).value;
    LegacyIntrospector.TableImports(rows, opts, select);
    NoDefaultsNoFailure(ts, classify);
  }

  // ----- the loop -----

  /** The inner loop of `collectTypes`: each column's imports are added and
      its property written. */
  method ColumnsLoop(start: ImportCollection, columns: seq<ColumnMetadata>)
    returns (added: Result<ImportCollection, ImportError>, properties: seq<PropertySignature>)
    ensures added == FoldImports(start, columns, AddColumn)
    ensures added.Ok? ==> properties == ColumnProperties(columns)
  {
    var imports := start;
    properties := [];
    var j := 0;
    while j < |columns|
      invariant 0 <= j <= |columns|
      invariant FoldImports(start, columns[..j], AddColumn) == Ok(imports)
      invariant properties == ColumnProperties(columns[..j])
    {
      var column := columns[j];
      var prefix := columns[..j + 1];
      assert prefix[..j] == columns[..j] && prefix[j] == column;
      assert FoldImports(start, prefix, AddColumn) == AddColumn(imports, column);
      var next := AddColumn(imports, column);
      if next.Err? {
        FoldStopsAtFailure(start, columns, AddColumn, j + 1);
        return Err(next.error), properties;
      }
      imports := next.value;
      ColumnPropertiesSnoc(columns[..j], column);
      assert prefix == columns[..j] + [column];
      properties := properties + [PropertySignature(column.name, column.tsType.text, column.comment)];
      j := j + 1;
    }
    assert columns[..j] == columns;
    added := Ok(imports);
  }

  lemma ColumnPropertiesSnoc(cols: seq<ColumnMetadata>, col: ColumnMetadata)
    ensures ColumnProperties(cols + [col]) ==
      ColumnProperties(cols) + [PropertySignature(col.name, col.tsType.text, col.comment)]
  {
    var l := ColumnProperties(cols + [col]);
    var r := ColumnProperties(cols) + [PropertySignature(col.name, col.tsType.text, col.comment)];
    assert forall j | 0 <= j < |cols| :: (cols + [col])[j] == cols[j];
    assert |l| == |r|;
    assert forall j | 0 <= j < |l| :: l[j] == r[j];
  }

  /** One pass of the outer loop: the table's `Database` property, its
      columns, its four declarations and the helper imports. */
  method TableStep(imports: ImportCollection, table: TableMetadata, classify: Classifier)
    returns (added: Result<ImportCollection, ImportError>, property: PropertySignature, decls: seq<Declaration>)
    ensures added == AddTable(imports, table)
    ensures property == PropertySignature(table.name, classify(table.name) + "Table", None)
    ensures added.Ok? ==> decls == TableDeclarations(table, classify)
  {
    var className := classify(table.name);
    var tableName := className + "Table";
    property := PropertySignature(table.name, tableName, None);
    var columns, properties := ColumnsLoop(imports, table.columns);
    if columns.Err? {
      return Err(columns.error), property, [];
    }
    decls := [
      InterfaceDecl(tableName, properties, table.comment),
      TypeDecl(className, "Selectable<" + tableName + ">", None),
      TypeDecl("New" + className, "Insertable<" + tableName + ">", None),
      TypeDecl(className + "Update", "Updateable<" + tableName + ">", None)];
    added := Ok(AddHelpers(columns.value));
  }

  /** The body of `collectTypes` as the source writes it: one pass over the
      tables, with the collection, the `Database` properties and the
      declarations built up as it goes. */
  method CollectTypesLoop(tables: seq<TableMetadata>, classify: Classifier)
    returns (r: Result<seq<Declaration>, ImportError>)
    ensures r == CollectTypes(tables, classify)
  {
    var imports := Empty;
    var dbProperties: seq<PropertySignature> := [];
    var declarations: seq<Declaration> := [];
    var i := 0;
    while i < |tables|
      invariant 0 <= i <= |tables|
      invariant CollectImports(tables[..i]) == Ok(imports)
      invariant dbProperties == DatabaseProperties(tables[..i], classify)
      invariant declarations == Body(tables[..i], classify)
    {
      var added, property, decls := TableStep(imports, tables[i], classify);
      if added.Err? {
        StepFailure(tables, i, classify, imports);
        return Err(added.error);
      }
      PrefixStep(tables, i, classify);
      imports := added.value;
      dbProperties := dbProperties + [property];
      declarations := declarations + decls;
      i := i + 1;
    }
    assert tables[..i] == tables;
    CollectTypesParts(tables, classify);
    r := Ok(ImportDecls(Values(imports)) + [InterfaceDecl("Database", dbProperties, None)] + declarations);
  }

  /** A table whose imports clash with those of the tables before it makes
      the whole run fail with that clash. */
  lemma StepFailure(tables: seq<TableMetadata>, i: nat, classify: Classifier, imports: ImportCollection)
    requires i < |tables| && CollectImports(tables[..i]) == Ok(imports)
    requires AddTable(imports, tables[i]).Err?
    ensures CollectTypes(tables, classify) == Err(AddTable(imports, tables[i]).error)
  {
    PrefixStep(tables, i, classify);
    FoldStopsAtFailure(Empty, tables, AddTable, i + 1);
  }
}
