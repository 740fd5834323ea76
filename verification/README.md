# kysqlgen core in Dafny

kysqlgen reads the catalog of a MySQL or SQLite database and writes a
TypeScript module of Kysely table interfaces. This project models the pure
part of that pipeline and proves properties of it:

- **Type algebra** (`Types`, src/type.ts): immutable type expressions —
  plain names, string and numeric literals, flattened unions and
  intersections, arrays, and the Kysely wrappers `ColumnType`,
  `JSONColumnType`, `Generated` and `GeneratedAlways` — each with its rendered
  text and its flattened import list.
- **Import bookkeeping** (`Imports`, src/imports.ts): the append-only
  collection keyed by module specifier. It holds an optional default import
  and an insertion-ordered set of named bindings per module. A second,
  different default is an error. `values()` is the sorted snapshot.
- **Printing** (`Printing`, src/printer.ts): printer options, import lines,
  type aliases and interfaces, and the layout of a whole module.
- **Declaration assembly** (`Generate`, `collectTypes` of src/generate.ts):
  table metadata becomes the ordered declaration list — imports, the
  `Database` interface, then per table its interface and three row-type
  aliases.
- **MySQL mapping** (`MysqlDataTypes`, `MysqlCollector`,
  `MysqlIntrospector`):
  - the data-type table driven by the pool flags;
  - the select-type precedence (casts, JSON column types, enum members,
    native type);
  - the nullable-then-wrap refinement;
  - the fold of information-schema rows into tables (shared with the
    legacy introspector through `Grouping`).
- **SQLite mapping** (`SqliteCollector`): column affinity as in section 3.1,
  "Determination Of Column Affinity", of SQLite's "Datatypes In SQLite", and
  the resulting column types.
- **Legacy MySQL pipeline** (`LegacyDataTypes`, `LegacyIntrospector`): the
  string-valued type table of src/mysql/data-types.ts and the per-row mapping
  of src/mysql/introspector.ts. This pipeline produces the `TsType` columns
  (`Introspector`) that src/generate.ts consumes.

The model is functional. Collections are sequences and maps. Thrown errors
are `Result` values. JavaScript's `substring`, `indexOf`, `includes`, `trim`
and case mapping are written out in `Strings`. The SQL queries, the enum
member re-selection and `classify` are parameters.

Where the code and its description disagree, the model follows the code.
Where the code looks wrong, the `## Findings` section below gives the
behaviour as written and a corrected definition beside it.

- `values()` returns the named bindings in first-insertion order
  (src/imports.ts:84). The description and the tests at
  src/imports.test.ts:22 and :60 expect them sorted. The model keeps
  insertion order (`Imports.ValuesKeepInsertionOrder`).
- `parseColumnType` slices from one character before the first space
  (src/mysql/mysql-collector.ts:126-130). So `int unsigned` becomes
  `t unsigned`, and a cast keyed `int unsigned` is never found through it
  (`MysqlCollector.ParseExamples`).
- A cast that is already a wrapper is kept unchanged only when the column is
  not nullable. `nullable` turns the cast into a union, which the wrapper test
  rejects, so a nullable column with a default gets `Generated<Cast | null>`
  (`MysqlCollector.NullableCastWrappedAgain`).
- A present but empty binding list still prints braces, `{  }`
  (`Printing.BindingsOnlyLine`).

## Model

| member | source | states |
|---|---|---|
| `Types.FirstAbsent` | src/type.ts:122 | The index of the first absent parameter, or the length when none is absent: every slot before it is present and the slot at it is absent. |
| `Types.NormalizeTypeParams` | src/type.ts:114-127 | `normalizeTypeParams` as written: the parameters before the first absent one. Its contract is stated by `Types.NormalizeIsPresentPrefix`, `Types.NormalizeIgnoresDefault` and `Types.NormalizeDropsAfterGap`. |
| `Types.NormalizeIsPresentPrefix` | src/type.ts:114-127 | As written, normalising keeps exactly the present parameters before the first gap, each unchanged and in place, and never returns more than it was given. |
| `Types.NormalizeIgnoresDefault` | src/type.ts:118-126 | As written, the result does not depend on the defaults at all. |
| `Types.NormalizeDropsAfterGap` | src/type.ts:122-124 | As written, `[a, absent, b]` normalises to `[a]`: a present parameter after a gap is dropped. |
| `Types.LastPresentEnd` | src/type.ts:108-113 | One past the last present parameter: every later slot is absent and the slot just before it is present. |
| `Types.NormalizeWithDefaultsKeepsPositions` | src/type.ts:108-113 | The normalisation the doc comment describes, `Types.NormalizeWithDefaults`: every present parameter stays at its own position, the gaps before the last present one read the default, and trailing absent parameters vanish. |
| `Types.NormalizeWithDefaults` | src/type.ts:108-113 | The corrected normalisation, used only by the intended rendering. Its contract is stated by `Types.NormalizeWithDefaultsKeepsPositions`. |
| `Types.NormalizeAgreesWithoutGap` | src/type.ts:114-127 | When no present parameter follows an absent one, the corrected normalisation and the code as written return the same list. |
| `Types.NormalizeWithDefaultsMap` | src/type.ts:108-113 | The corrected normalisation commutes with mapping every parameter and the default. |
| `Types.NormalizeTypeParamsMap` | src/type.ts:143-162 | Normalising as written commutes with mapping every present parameter, whatever the two defaults: same length, and each result entry is the mapped entry. So the texts and the imports of a wrapper's parameters are cut at the same place. |
| `Types.TypeParameters` | src/type.ts:143-148 | The `typeParameters` getter of `ColumnType` (default: the select type) and `JSONColumnType` (default: `string`), over `normalizeTypeParams` as written. Its rendering is stated by `Types.ParameterisedWrapperRendering`. |
| `Types.IsColumnTypeExactlyWrappers` | src/type.ts:248-252 | `isColumnType` holds exactly for `ColumnType`, `JSONColumnType`, `Generated` and `GeneratedAlways`. |
| `Types.IsColumnType` | src/type.ts:250-252 | `isColumnType`, the test for a `selectType` field. Its contract is stated by `Types.IsColumnTypeExactlyWrappers` and `Types.NullableIsNotWrapper`. |
| `Types.NullableIsNotWrapper` | src/type.ts:290-291 | `nullable(t)` and `optional(t)` are unions, so they never pass the wrapper test, whatever `t` is. |
| `Types.OperandsAppend` | src/type.ts:55-57 | Flattening the operands of a concatenation is the concatenation of the flattened operands. |
| `Types.CompoundAssociative` | src/type.ts:53-58 | A nested compound of the same operator, first or last, gives the same compound as the spliced operand list. |
| `Types.MakeCompoundFlat` | src/type.ts:53-58 | When the same-operator operands are already flat, no member of the result is a compound of that operator, and every other operand is a member. |
| `Types.ImportListOfAppend` | src/type.ts:64-66 | The imports of a concatenated member list are the two lists' imports concatenated. |
| `Types.CompoundImports` | src/type.ts:64-66 | A compound's imports are its operands' imports concatenated in operand order, whatever the flattening did. |
| `Types.OperandsLength` | src/type.ts:55-57 | Without empty same-operator compounds among the operands, flattening never loses an operand slot. |
| `Types.CompoundText` | src/type.ts:60-62 | A compound renders as its operands' texts joined by ` \| ` or ` & `, so flattening is invisible in the text. |
| `Types.MakeCompound` | src/type.ts:53-58 | The `CompoundType` constructor: the operands, each same-operator compound spliced in. Its contract is stated by `Types.MakeCompoundFlat`, `Types.CompoundAssociative` and `Types.OperandsLength`. |
| `Types.Union` | src/type.ts:288 | `union(...)`, a compound with the `\|` operator. Its rendering and flattening are stated by `Types.CompoundText`, `Types.PairUnionText` and `Types.MakeCompoundFlat`. |
| `Types.Intersection` | src/type.ts:289 | `intersection(...)`, a compound with the `&` operator. Its rendering and flattening are stated by `Types.CompoundText`, `Types.PairText` and `Types.MakeCompoundFlat`. |
| `Types.PairText` | src/type.ts:60-62 | A compound of two non-empty operands renders as the first text, the separator, and the second text. |
| `Types.PairUnionText` | src/type.ts:69-73 | `union(x, y)` renders `x \| y`. |
| `Types.NullableRendering` | src/type.ts:290 | `nullable(t)` renders `t \| null` and needs exactly `t`'s imports. |
| `Types.OptionalRendering` | src/type.ts:291 | `optional(t)` renders `t \| undefined`. |
| `Types.NullableImports` | src/type.ts:290 | `null` adds no import: `nullable(t)` has `t`'s imports for every `t`. |
| `Types.Nullable` | src/type.ts:290 | `nullable(t)`, the union of `t` and `null`. Its rendering, imports and wrapper test are stated by `Types.NullableRendering`, `Types.NullableImports` and `Types.NullableIsNotWrapper`. |
| `Types.Optional` | src/type.ts:291 | `optional(t)`, the union of `t` and `undefined`. Its rendering and wrapper test are stated by `Types.OptionalRendering` and `Types.NullableIsNotWrapper`. |
| `Types.ImportedRendering` | src/type.ts:254-261 | For every name and module, the imported type renders as the name and imports exactly that one name from that module. |
| `Types.Imported` | src/type.ts:254-261 | `createImportedType`. Its contract is stated by `Types.ImportedRendering`. |
| `Types.ArrayRendering` | src/type.ts:90-105 | An array renders `T[]` exactly when the element text is non-empty and alphanumeric, otherwise `Array<T>`; its imports are the element's. |
| `Types.LiteralRendering` | src/type.ts:25-32 | A string literal is its value between double quotes with no escaping; a non-negative numeric literal is decimal digits that read back as the number, and a negative one is `-` followed by the digits of its magnitude; literals need no import. |
| `Types.ConcatImportLists` | src/type.ts:156 | Concatenating the parameters' import lists is the flat import list of the parameters. |
| `Types.ParameterisedWrapperRendering` | src/type.ts:143-198 | `ColumnType` and `JSONColumnType` render as `Name<p1, ..., pk>` over the parameters `normalizeTypeParams` keeps as written. Their imports are those parameters' imports, then one `kysely` binding of their own name. |
| `Types.WrapperParamTexts` | src/type.ts:150-152 | The parameter texts are `normalizeTypeParams`, as written, of the three parameters' texts: cut at the first absent one. |
| `Types.WrapperParamImports` | src/type.ts:154-162 | The parameter imports are the concatenation of `normalizeTypeParams`, as written, of the three parameters' import lists: cut at the first absent one. |
| `Types.GeneratedRendering` | src/type.ts:204-246 | `Generated<S>` and `GeneratedAlways<S>` wrap the select text, and their imports are `S`'s followed by one `kysely` binding of their own name. |
| `Types.Text` | src/type.ts:25-246 | The `type` getter of every class. Its contract is stated per class by `Types.LiteralRendering`, `Types.CompoundText`, `Types.ArrayRendering`, `Types.ParameterisedWrapperRendering` and `Types.GeneratedRendering`. |
| `Types.ImportList` | src/type.ts:30-246 | The `imports` getter of every class, an absent list read as empty. Its contract is stated per class by `Types.LiteralRendering`, `Types.CompoundImports`, `Types.ArrayRendering`, `Types.ParameterisedWrapperRendering` and `Types.GeneratedRendering`. |
| `Types.StringLiteralExample` | src/type.test.ts:23 | `stringLiteral("foo")` renders `"foo"`. |
| `Types.NumericLiteralExample` | src/type.test.ts:24 | `numericLiteral(123)` renders `123`. |
| `Types.ShortArrayExample` | src/type.test.ts:25 | `array(number)` renders `number[]`. |
| `Types.LongArrayExample` | src/type.test.ts:26-29 | `array({ n: number })` renders `Array<{ n: number }>`. |
| `Types.UnionExample` | src/type.test.ts:30-33 | `union("a", "b")` renders `"a" \| "b"`. |
| `Types.IntersectionExample` | src/type.test.ts:34-37 | Two object types intersect as `{x: number} & {y: number}`. |
| `Types.NullableExample` | src/type.test.ts:38 | `nullable(number)` renders `number \| null`. |
| `Types.OptionalExample` | src/type.test.ts:39 | `optional(number)` renders `number \| undefined`. |
| `Types.ImportedExample` | src/type.test.ts:40 | `imported("Buffer", "node:buffer")` renders `Buffer` and imports `Buffer` from `node:buffer`. |
| `Types.NestedUnionExample` | src/type.ts:53-62 | `union(union(number, string), null)` renders `number \| string \| null`. |
| `Types.ColumnTypeTwoParams` | src/type.ts:143-152 | `ColumnType(S, I)` renders both parameters. |
| `Types.JsonColumnTypeOneParam` | src/type.ts:179-188 | `JSONColumnType(S)` renders its select type alone. |
| `Types.ColumnTypeExample` | src/type.test.ts:42-45 | `ColumnType(unknown, string)` renders `ColumnType<unknown, string>`. |
| `Types.JsonColumnTypeExample` | src/type.test.ts:46-49 | `JSONColumnType(unknown)` renders `JSONColumnType<unknown>`. |
| `Types.GeneratedExamples` | src/type.test.ts:50-53 | `Generated<bigint>` and `GeneratedAlways<bigint>`. |
| `Types.ColumnTypeGapFilled` | src/type.ts:108-113 | Intended: `ColumnType(S, undefined, U)` renders `ColumnType<S, S, U>` and imports what `S` twice and `U` need, then `ColumnType`. |
| `Types.ColumnTypeGapAsWritten` | src/type.ts:122-124 | As written: `ColumnType(S, undefined, U)` renders `ColumnType<S>` and imports only what `S` needs, then `ColumnType`. `U` is lost from both. |
| `Types.IntendedTypeParameters` | src/type.ts:108-113 | The parameters the doc comment promises. The select type comes first. A present insert type is second and a present update type third. Without an update type there are at most two, without both there is one, and a gap at the insert position reads the default. |
| `Types.IntendedAgreesWithoutGap` | src/type.ts:143-198 | When the insert type is absent only if the update type is too, the intended parameters, text and imports equal the ones the code as written produces. |
| `Imports.SetAdd` | src/imports.ts:52-55 | `Set.add`: the new element is in, membership is the old set plus it, the old elements keep their order in front, and no duplicate appears. |
| `Imports.SetAddAll` | src/imports.ts:53-55 | Adding several names to a `Set`: membership is the union, the old elements stay a prefix, and distinctness is kept. `Imports.SetAddAllAppendsFresh` fixes the order of the rest. |
| `Imports.FreshMembers` | src/imports.ts:53-55 | The names a `Set` gains from a list: exactly those in the list and not already in the set, each once. |
| `Imports.SetAddAllAppendsFresh` | src/imports.ts:53-55 | Adding a list to a `Set` leaves the old elements, then the new names in first-occurrence order: `s + Fresh(s, xs)`. |
| `Imports.Touch` | src/imports.ts:43-50 | Looking a module up creates an empty entry when missing and appends its key to the order; every other module is unchanged. |
| `Imports.AddNamed` | src/imports.ts:42-56 | The module's bindings become the old ones plus the names, old ones first. Its default and every other module are unchanged, and the collection stays well formed. `Imports.AddNamedAppendsFresh` fixes the order of the new bindings. |
| `Imports.AddNamedAppendsFresh` | src/imports.ts:52-55 | `addNamed` appends to the module's bindings exactly the names not yet there, in first-occurrence order. |
| `Imports.AddNamedKeeps` | src/imports.ts:42-56 | `addNamed` only adds: every binding of every module stays, and every truthy default stays. |
| `Imports.AddDefault` | src/imports.ts:58-75 | Fails exactly when a different truthy default is registered. Otherwise the default is set, the bindings and every other module are unchanged, and the collection stays well formed. |
| `Imports.AddDefaultIdempotent` | src/imports.ts:68-74 | Registering the same default twice is the same as once. |
| `Imports.AddDefaultConflict` | src/imports.ts:68-72 | After a non-empty default is registered, a different one is rejected. |
| `Imports.AddNamedIdempotent` | src/imports.ts:52-55 | Adding the same names twice is the same as once. |
| `Imports.SetAddAllNoop` | src/imports.ts:53-55 | Adding names that are all present already leaves the set unchanged. |
| `Imports.AddImport` | src/imports.ts:31-40 | Fails exactly on a conflicting truthy default. Otherwise the module gains the import's bindings and, when truthy, its default; no other module changes; the collection stays well formed. |
| `Imports.AddAppend` | src/imports.ts:25-29 | Adding `a ++ b` adds `a`, then `b` to the result, stopping at the first failure. |
| `Imports.AddFailsIffConflict` | src/imports.ts:25-40 | A bulk add succeeds exactly when no import's truthy default conflicts with the default registered before it. |
| `Imports.Add` | src/imports.ts:25-29 | `add(...typeImports)`: each import in turn, the first failure aborting. A success on a well-formed collection is well formed. Its merging is stated by `Imports.AddMergesEveryImport`. |
| `Imports.AddImportMerges` | src/imports.ts:31-40 | A successful `#addImport` keeps every binding and truthy default the collection had, and the module now holds all of the import's bindings and its truthy default. |
| `Imports.AddMergesEveryImport` | src/imports.ts:25-40 | A successful `add` keeps everything the collection had, and holds every binding and every truthy default of every import it was given. |
| `Imports.HeldImportInValues` | src/imports.ts:77-87 | A module that holds an import's bindings or truthy default, when that import has one, appears in `values()` with all of those bindings and with that default. |
| `Imports.Snapshots` | src/imports.ts:81-85 | The snapshots are exactly the visible entries of the given keys, each built from its entry, one per distinct key. |
| `Imports.InsertByModule` | src/imports.ts:86 | Inserting into a list sorted by specifier keeps it sorted and adds exactly the new element. |
| `Imports.SortByModule` | src/imports.ts:86 | The sort returns a permutation of its input, sorted by module specifier. |
| `Imports.Values` | src/imports.ts:77-87 | `values()` is sorted by specifier. It holds exactly the snapshots of the entries with a truthy default or a non-empty binding set. Each snapshot lists its bindings in insertion order, or `[]` when it has none. |
| `Imports.ValuesOnePerModule` | src/imports.ts:77-87 | `values()` holds at most one import per module specifier. |
| `Imports.KyselyTestShape` | src/imports.test.ts:9-16 | Four `addNamed` calls on `kysely` create one module without a default. |
| `Imports.KyselyTestBindings` | src/imports.test.ts:9-23 | Those calls leave the bindings `ColumnType, JSONColumnType, Generated`, with the repeat dropped and in insertion order, not the sorted order the test expects. |
| `Imports.RepeatDropped` | src/imports.ts:52-55 | Starting from no bindings, adding `a, a, b, d` one by one yields `[a, b, d]`. |
| `Imports.AddOneName` | src/imports.ts:52-55 | Adding one name is `Set.add` on the module's bindings. |
| `Imports.ValuesKeepInsertionOrder` | src/imports.ts:84 | The snapshot of that test collection is one `kysely` import with bindings `ColumnType, JSONColumnType, Generated`. |
| `Imports.SingleModuleValues` | src/imports.ts:77-87 | A collection of one visible module snapshots to exactly that module's import. |
| `Imports.EmptyAddNamedInvisible` | src/imports.ts:81 | `addNamed(m)` with no names on a new module does not change `values()`. |
| `Printing.Repeat` | src/printer.ts:62 | `String.repeat`: `n` copies, each character the repeated one when it is a single character. |
| `Printing.NewPrinter` | src/printer.ts:40-64 | The options spread over the defaults. A key set to `undefined` overrides its default. The indent is the width truncated toward zero, in tabs exactly for `tab`, or 2 when the width is absent, or none when it is `undefined`. The terminator is `;` exactly when `semicolons` is absent or true. A width of -1 or below is the `repeat` range error, and only that fails. |
| `Printing.RepeatCount` | src/printer.ts:62 | The count `repeat` reads: `undefined` is 0, and a number is truncated toward zero. It is negative exactly when the width is -1 or below. |
| `Printing.UndefinedOverridesDefaults` | src/printer.ts:56-63 | With every option set to `undefined` the indent is empty and there is no semicolon. |
| `Printing.FractionalWidths` | src/printer.ts:62 | A width of 2.5 indents by two spaces, -0.5 by none, and -1 fails. |
| `Printing.DefaultPrinter` | src/printer.ts:46-50 | With no options the indent is two spaces and the terminator `;`. |
| `Printing.BindingsOnlyLine` | src/printer.ts:120-129 | Without a default: `import type { b1, b2 } from "m"` plus terminator and newline; an empty binding list prints `{  }`. |
| `Printing.DefaultAndBindingsLine` | src/printer.ts:120-129 | With a default and bindings: `import type D, { ... } from "m"`. |
| `Printing.DefaultOnlyLine` | src/printer.ts:120-129 | Without a binding list: `import type D from "m"`, or `import type  from "m"` when the default is falsy. |
| `Printing.PrintSpecifier` | src/printer.ts:117-118 | A plain binding prints as its name and an aliased one as `name as alias`. Its contract is stated, inside whole import lines, by `Printing.BindingsOnlyLine`, `Printing.DefaultAndBindingsLine` and `Printing.KyselyImportLine`. |
| `Printing.PrintImport` | src/printer.ts:114-130 | `printImport`. Its contract is stated case by case by `Printing.BindingsOnlyLine`, `Printing.DefaultAndBindingsLine` and `Printing.DefaultOnlyLine`. |
| `Printing.PrintType` | src/printer.ts:132-135 | `printType`: `export type N = T` with the terminator, comment not printed. Its contract is stated by `Printing.PrintBodyLayout`, `Printing.PrintBodyIgnoresComments` and `Printing.TypeExample`. |
| `Printing.PrintInterface` | src/printer.ts:137-156 | `printInterface`: the header, one indented line per property, then `}`, comments not printed. Its contract is stated by `Printing.PropertyLinesIgnoreComments`, `Printing.PrintBodyLayout` and `Printing.InterfaceExample`. |
| `Printing.SplitKeepsOrder` | src/printer.ts:73-86 | The reduce separates the imports and the other declarations, each kept in input order. |
| `Printing.OthersInMembers` | src/printer.ts:73-86 | The non-import part holds exactly the input's non-import declarations. |
| `Printing.Split` | src/printer.ts:73-86 | The `reduce` that separates imports from the other declarations. Its contract is stated by `Printing.SplitKeepsOrder` and `Printing.OthersInMembers`. |
| `Printing.PrintBodyLayout` | src/printer.ts:95-109 | The body succeeds exactly when every declaration is a type alias or an interface, and is then the declarations' texts in order. |
| `Printing.PrintBody` | src/printer.ts:95-109 | The second loop of `print`, throwing on an unknown kind. Its contract is stated by `Printing.PrintBodyLayout` and `Printing.PrintBodyIgnoresComments`. |
| `Printing.PrintLayout` | src/printer.ts:66-112 | `print` fails exactly on an unknown kind. Otherwise it is the import lines in input order, a blank line iff there is any import, then every other declaration in order. |
| `Printing.Print` | src/printer.ts:66-112 | `print`: the imports, a blank line when there are any, then every other declaration. Its contract is stated by `Printing.PrintLayout`. |
| `Printing.PropertyLinesIgnoreComments` | src/printer.ts:146-151 | Property lines do not depend on property comments. |
| `Printing.PrintBodyIgnoresComments` | src/printer.ts:132-156 | Removing every comment leaves the body's result unchanged. |
| `Printing.CommentsNeverPrinted` | src/printer.ts:132-156 | Removing every comment from the declarations leaves `print`'s result unchanged. |
| `Printing.ImportsOnly` | src/printer.ts:88-93 | A list of imports prints as its import lines, then one blank line when non-empty. |
| `Printing.SingleDeclaration` | src/printer.ts:95-109 | One alias or interface prints as its own text alone. |
| `Printing.KyselyImportLine` | src/printer.test.ts:9-23 | The `kysely` import prints `import type { Generated, ColumnType } from "kysely";`. |
| `Printing.BufferImportLine` | src/printer.test.ts:15-24 | The `node:buffer` import prints `import type { Buffer } from "node:buffer";`. |
| `Printing.ImportsExample` | src/printer.test.ts:8-28 | The test's two imports print as the two expected lines followed by a blank line, each part joined by a newline. |
| `Printing.DefaultImportExample` | src/printer.test.ts:30-42 | A default-only import prints `import type Buffer from "node:buffer";` and a blank line. |
| `Printing.TypeExample` | src/printer.test.ts:45-57 | The `Person` alias prints `export type Person = Selectable<PersonTable>;` and a blank line. |
| `Printing.InterfaceExample` | src/printer.test.ts:59-83 | `PersonTable` prints its header, two indented property lines and `}`, then a blank line. |
| `Generate.FoldStopsAtFailure` | src/generate.ts:84-86 | Once adding imports has failed on a prefix of the columns, the rest of the loop changes nothing. |
| `Generate.FoldNeverFails` | src/generate.ts:65-93 | When no step can fail, the fold over all columns succeeds. |
| `Generate.ColumnProperties` | src/generate.ts:81-93 | One property per column, in column order, copying name, type text and comment. |
| `Generate.TableDeclarations` | src/generate.ts:66-113 | Per table: interface `CTable` with the table comment and its column properties, then `C = Selectable<CTable>`, `NewC = Insertable<CTable>` and `CUpdate = Updateable<CTable>`. |
| `Generate.DatabaseProperties` | src/generate.ts:74-78 | `Database` has one property per table, in table order, of type `classify(name)` + `Table`. |
| `Generate.TableTypeName` | src/generate.ts:66-69 | `${className}Table`. Its use is stated by `Generate.DatabaseProperties` and `Generate.TableDeclarations`, which name the table interface `classify(name) + "Table"`. |
| `Generate.DatabaseDecl` | src/generate.ts:56-62 | The `Database` interface, its properties filled in per table. Its contract is stated by `Generate.DatabaseProperties`, `Generate.CollectTypesLayout` and `Generate.NoTablesOnlyDatabase`. |
| `Generate.ImportDecls` | src/generate.ts:117-119 | Every snapshot import becomes one import declaration, in order. |
| `Generate.CollectTypes` | src/generate.ts:52-124 | Assembly fails exactly when merging the column imports fails, with that error. |
| `Generate.BodyAt` | src/generate.ts:95-113 | Declaration `4i + k` of the body is declaration `k` of table `i`. |
| `Generate.Body` | src/generate.ts:95-113 | The table declarations in table order, four per table. Its contract is stated by `Generate.BodyAt`, `Generate.BodyPrintable` and `Generate.TablesInOrder`. |
| `Generate.CollectTypesLayout` | src/generate.ts:52-123 | The result is the `values()` imports, then `Database`, then four declarations per table: `#imports + 1 + 4·#tables` in all. |
| `Generate.TablesInOrder` | src/generate.ts:65-114 | Table `i`'s declarations sit right after the imports and `Database`, at `4i`, in table order. |
| `Generate.BodyPrintable` | src/generate.ts:95-113 | Every table declaration is an interface or a type alias. |
| `Generate.NoTablesOnlyDatabase` | src/generate.ts:52-62 | With no tables the result is the empty `Database` interface alone, with no imports. |
| `Generate.GeneratedKindsKnown` | src/generate.ts:57-121 | Every assembled declaration is of a kind the printer knows. |
| `Generate.GeneratedModulePrints` | src/generate.ts:52-124 | The printer never rejects an assembled module. |
| `Generate.CollectImportsValid` | src/generate.ts:84-113 | The merged import collection is well formed: one key per module, distinct bindings. |
| `Generate.AddColumn` | src/generate.ts:82-86 | The imports of one column added to the collection, when it has any. Its contract is stated by `Generate.AddColumnMerges`. |
| `Generate.AddTable` | src/generate.ts:81-113 | One table's columns' imports, then the three row-type helpers. Its contract is stated by `Generate.AddTableMerges`. |
| `Generate.CollectImports` | src/generate.ts:53-114 | The import collection after every table. Its contract is stated by `Generate.CollectImportsValid`, `Generate.CollectImportsHoldsColumns` and `Generate.ColumnImportsMerged`. |
| `Generate.FoldMerges` | src/generate.ts:65-114 | A loop whose every step keeps what it had and holds what its item asks for ends keeping the start and holding what every item asked for. |
| `Generate.AddColumnMerges` | src/generate.ts:84-86 | A column's successful step keeps the collection and holds every import the column asks for. |
| `Generate.AddTableMerges` | src/generate.ts:81-113 | A table's successful step keeps the collection and holds every import any of its columns asks for. |
| `Generate.CollectImportsHoldsColumns` | src/generate.ts:65-114 | A successful run holds every binding and truthy default that any column of any table asked for. |
| `Generate.ColumnImportsMerged` | src/generate.ts:84-86 | When `collectTypes` succeeds, every column import with a binding or a truthy default is merged into the import declaration for its module, which carries all of its bindings and its default. |
| `Generate.HelperBindings` | src/generate.ts:101-113 | After a table, `kysely` holds `Selectable`, `Insertable` and `Updateable`. |
| `Generate.AddHelpers` | src/generate.ts:101-113 | The three `addNamed("kysely", …)` calls of one table. Its contract is stated by `Generate.HelperBindings` and `Generate.HelpersImported`. |
| `Generate.HelpersImported` | src/generate.ts:101-121 | With at least one table, `values()` holds a `kysely` import with the three row-type helpers. |
| `Generate.AddWithoutDefaults` | src/imports.ts:25-40 | Imports without a truthy default can always be added. |
| `Generate.NoDefaultsNoFailure` | src/generate.ts:84-86 | When no column import carries a default, assembly cannot fail. |
| `Generate.LegacyTablesGenerate` | src/generate.ts:84-86 | Tables from the legacy MySQL introspector always assemble: their imports carry no default. |
| `Generate.ColumnsLoop` | src/generate.ts:81-93 | The column loop adds each column's imports in order, stopping at the first failure, and otherwise builds the column properties. |
| `Generate.TableStep` | src/generate.ts:65-113 | One table iteration: its imports and helpers, its `Database` property and its four declarations. |
| `Generate.CollectTypesLoop` | src/generate.ts:52-124 | The loop with its `unshift` of imports computes exactly the declaration list above. |
| `Generate.StepFailure` | src/generate.ts:84-86 | A table whose imports clash with those gathered from the tables before it makes the whole run return that clash. |
| `MysqlDataTypes.GetNativeType` | src/mysql/mysql-data-types.ts:156-166 | Succeeds exactly on the keys of the data-type table, with that key's type under the options; any other name is the unknown-type error. |
| `MysqlDataTypes.NamesRoundTrip` | src/mysql/mysql-data-types.ts:103-147 | Every data type's key reads back as that data type. |
| `MysqlDataTypes.KeysRoundTrip` | src/mysql/mysql-data-types.ts:103-147 | Every name that reads as a data type is that type's key. |
| `MysqlDataTypes.KnownNamesSucceed` | src/mysql/mysql-data-types.ts:149-166 | Every table key maps to its type under any options. |
| `MysqlDataTypes.IsDataTypeIffKey` | src/mysql/mysql-data-types.ts:149-151 | A string passes `isDataType`, read as an own-key test, exactly when it is the key of some data type. |
| `MysqlDataTypes.IsDataType` | src/mysql/mysql-data-types.ts:149-151 | `isDataType` on the table's own keys. Its contract is stated by `MysqlDataTypes.IsDataTypeIffKey`; the inherited keys are shown by `MysqlDataTypes.InheritedKeyPassesTheGuard`. |
| `MysqlDataTypes.FixedGroups` | src/mysql/mysql-data-types.ts:103-147 | The integer types, float, double and year give `number`; bit, binary, varbinary and the blobs give `Buffer`; every other entry that ignores the options gives `string`. |
| `MysqlDataTypes.NumberGroup` | src/mysql/mysql-data-types.ts:105-119 | The numeric fixed entries map to `number` under any options. |
| `MysqlDataTypes.BufferGroup` | src/mysql/mysql-data-types.ts:113-128 | The binary fixed entries map to `Buffer` under any options. |
| `MysqlDataTypes.StringGroup` | src/mysql/mysql-data-types.ts:116-144 | The remaining fixed entries map to `string` under any options. |
| `MysqlDataTypes.OptionsOnlyMatterFor` | src/mysql/mysql-data-types.ts:103-147 | Only bigint, decimal, the three date types and json read the pool options. |
| `MysqlDataTypes.DecimalFollowsBigint` | src/mysql/mysql-data-types.ts:88-94 | `decimal` is `number` under `decimalNumbers` and follows the bigint rule otherwise. |
| `MysqlDataTypes.BigNumberCases` | src/mysql/mysql-data-types.ts:81-86 | `bigint` is `number` iff big numbers are off; `string` iff on and as strings; `number \| string` iff on but not as strings. |
| `MysqlDataTypes.JsonCases` | src/mysql/mysql-data-types.ts:78-79 | `json` is `string` under `jsonStrings`, otherwise `unknown`. |
| `MysqlDataTypes.DateCases` | src/mysql/mysql-data-types.ts:70-76 | A date type is `string` iff the flag is set, or iff a lower-cased list entry names it; otherwise `Date`. |
| `MysqlDataTypes.DateListExample` | src/mysql/mysql-data-types.ts:70-76 | With `["DATETIME"]` only `datetime` becomes `string`; `date` and `timestamp` stay `Date`. |
| `MysqlDataTypes.DateStringsType` | src/mysql/mysql-data-types.ts:70-76 | The `dateStrings` rule. Its contract is stated by `MysqlDataTypes.DateCases` and `MysqlDataTypes.DateListExample`. |
| `MysqlDataTypes.JsonStringsType` | src/mysql/mysql-data-types.ts:78-79 | The `jsonStrings` rule. Its contract is stated by `MysqlDataTypes.JsonCases`. |
| `MysqlDataTypes.BigNumbersType` | src/mysql/mysql-data-types.ts:81-86 | The `bigNumbers` rule. Its contract is stated by `MysqlDataTypes.BigNumberCases`. |
| `MysqlDataTypes.DecimalNumbersType` | src/mysql/mysql-data-types.ts:88-94 | The `decimalNumbers` rule. Its contract is stated by `MysqlDataTypes.DecimalFollowsBigint`. |
| `MysqlDataTypes.InheritedKeyPassesTheGuard` | src/mysql/mysql-data-types.ts:149-151 | The guard as written accepts `constructor`, which the table does not hold; the own-key guard rejects it and agrees on every real key. |
| `LegacyDataTypes.GetNativeText` | src/mysql/data-types.ts:154-164 | Succeeds exactly on the keys of the legacy table; any other name is the unknown-type error. |
| `LegacyDataTypes.SameTypesDifferentKey` | src/mysql/data-types.ts:104-148 | Every data type's legacy key (`geometrycollection`, not `geomcollection`) reads back as that type. |
| `LegacyDataTypes.LegacyKeysRoundTrip` | src/mysql/data-types.ts:104-148 | Every name that reads as a legacy data type is that type's legacy key. |
| `LegacyDataTypes.KnownLegacyNamesSucceed` | src/mysql/data-types.ts:150-164 | Every legacy key maps to its entry's text under any options. |
| `LegacyDataTypes.IsLegacyDataTypeIffKey` | src/mysql/data-types.ts:150-152 | A string passes the legacy `isDataType`, read as an own-key test, exactly when it is the legacy key of some data type (`geometrycollection` included). |
| `LegacyDataTypes.IsLegacyDataType` | src/mysql/data-types.ts:150-152 | The legacy `isDataType` on own keys. Its contract is stated by `LegacyDataTypes.IsLegacyDataTypeIffKey`; the inherited keys are shown by `LegacyIntrospector.InheritedKeyPassesLegacyGuard`. |
| `LegacyDataTypes.FixedEntriesAgree` | src/mysql/data-types.ts:104-148 | A fixed legacy entry is the text of the typed table's entry. |
| `LegacyDataTypes.OptionEntriesAgree` | src/mysql/data-types.ts:71-95 | The legacy date, json, bigint and decimal rules give the text of the typed rules' results. |
| `LegacyDataTypes.DateStringsText` | src/mysql/data-types.ts:71-77 | The legacy `dateStrings` rule as text. Its contract is stated by `LegacyDataTypes.OptionEntriesAgree`, which equates it with the rendering of `MysqlDataTypes.DateStringsType`. |
| `LegacyDataTypes.JsonStringsText` | src/mysql/data-types.ts:79-80 | The legacy `jsonStrings` rule as text. Its contract is stated by `LegacyDataTypes.OptionEntriesAgree`. |
| `LegacyDataTypes.BigNumbersText` | src/mysql/data-types.ts:82-87 | The legacy `bigNumbers` rule as text. Its contract is stated by `LegacyDataTypes.OptionEntriesAgree`. |
| `LegacyDataTypes.DecimalNumbersText` | src/mysql/data-types.ts:89-95 | The legacy `decimalNumbers` rule as text. Its contract is stated by `LegacyDataTypes.OptionEntriesAgree`. |
| `LegacyDataTypes.AgreesWithTypedTable` | src/mysql/data-types.ts:154-164 | For every data type and options, the legacy lookup gives the text of the typed lookup. |
| `LegacyIntrospector.ValuesSqlInsideParens` | src/mysql/introspector.ts:108-111 | For `enum(...)` the list text is exactly what the parentheses hold. |
| `LegacyIntrospector.ValuesSql` | src/mysql/introspector.ts:108-111 | The text from just after `<dataType>(` to before the last character. Its contract is stated by `LegacyIntrospector.ValuesSqlInsideParens`. |
| `LegacyIntrospector.ColumnTsType` | src/mysql/introspector.ts:100-150 | The text is the base, then ` \| null` when nullable, then `Generated<...>` when generated. The imports hold `Buffer` iff the base is `Buffer` and `Generated` iff generated, at most two. |
| `LegacyIntrospector.ColumnFor` | src/mysql/introspector.ts:92-156 | An unknown data type is the introspection error naming it. A known one gives the column's name, raw comment and type. |
| `LegacyIntrospector.LegacyImports` | src/mysql/introspector.ts:124-150 | A column only ever imports `Buffer` from `node:buffer` or `Generated` from `kysely`. |
| `LegacyIntrospector.FirstUnknown` | src/mysql/introspector.ts:80-98 | Finds the first row with an unknown data type, or none when all are known. |
| `LegacyIntrospector.TableColumns` | src/mysql/introspector.ts:80-157 | One column per row of the table, in row order. |
| `LegacyIntrospector.BuildTables` | src/mysql/introspector.ts:77-91 | One table per group of rows, named and described by its first row, with the columns of its rows. |
| `LegacyIntrospector.GetTables` | src/mysql/introspector.ts:49-160 | Fails exactly when a non-migration row has an unknown type, with the first such row's error; otherwise returns the grouped tables. |
| `LegacyIntrospector.MigrationTablesLeftOut` | src/mysql/introspector.ts:71-72 | No result table is a Kysely migration table. |
| `LegacyIntrospector.TableImports` | src/mysql/introspector.ts:124-150 | Across all tables, every column import is the `Buffer` or the `Generated` import. |
| `LegacyIntrospector.TableNamesDistinct` | src/mysql/introspector.ts:77-91 | No two tables share a name. |
| `LegacyIntrospector.NullableText` | src/mysql/introspector.ts:138-140 | A nullable, non-generated column's text is its base text followed by ` \| null`. |
| `LegacyIntrospector.PlainColumnText` | src/mysql/introspector.ts:100-135 | A plain column's text is the legacy table's text, with the `Buffer` import only for `Buffer`. |
| `LegacyIntrospector.EnumTextIsLiteralUnion` | src/mysql/introspector.ts:121 | The enum text equals the rendering of the union of the values' string literals. |
| `LegacyIntrospector.EnumText` | src/mysql/introspector.ts:121 | Each value quoted, joined by ` \| `. Its contract is stated by `LegacyIntrospector.EnumTextIsLiteralUnion`. |
| `LegacyIntrospector.InheritedKeyPassesLegacyGuard` | src/mysql/introspector.ts:94-98 | A column typed `toString` passes the guard as written; the own-key guard raises the unknown-type error. |
| `InformationSchema.WithoutMigrationTables` | src/mysql/mysql-introspector.ts:81-85 | Exactly the rows not of a migration table remain. |
| `Grouping.CollectDescribes` | src/mysql/mysql-introspector.ts:89-101 | The map fold keys exactly the table names that occur, each once, in first-row order, with each key holding the rows of that name in row order. |
| `Grouping.Collect` | src/mysql/mysql-introspector.ts:89-101 | The `Map` fold over the rows. Its contract is stated by `Grouping.CollectDescribes`. |
| `Grouping.GroupBy` | src/mysql/mysql-introspector.ts:89-124 | One non-empty group per key, holding exactly the rows of that key in row order. |
| `Grouping.GroupKeysDistinct` | src/mysql/mysql-introspector.ts:89-101 | No two groups share a key. |
| `Grouping.GroupsCoverItems` | src/mysql/mysql-introspector.ts:89-101 | Every row's key has a group. |
| `Grouping.GroupsInFirstRowOrder` | src/mysql/mysql-introspector.ts:89-124 | Groups appear in the order of their key's first row. |
| `Grouping.GroupSizesAddUp` | src/mysql/mysql-introspector.ts:90-122 | Every row lands in exactly one group: the sizes add up to the row count. |
| `MysqlIntrospector.MemberListInsideParens` | src/mysql/mysql-introspector.ts:139-142 | For `enum(...)` the list text is exactly what the parentheses hold. |
| `MysqlIntrospector.MemberListAtFirstParen` | src/mysql/mysql-introspector.ts:139-142 | For a type that ends in `)`, the list is the text between its first `(` and that last character. |
| `MysqlIntrospector.MemberListWithoutParens` | src/mysql/mysql-introspector.ts:139-142 | Without `(` the list text is the whole column type minus its last character. |
| `MysqlIntrospector.MemberList` | src/mysql/mysql-introspector.ts:139-142 | The text from after the first `(` to before the last character. Its contract is stated by `MysqlIntrospector.MemberListInsideParens` and `MysqlIntrospector.MemberListWithoutParens`. |
| `MysqlIntrospector.GetMemberValues` | src/mysql/mysql-introspector.ts:137-151 | `#getMemberValues`: for a type written `prefix(body)` with no `(` in the prefix, the database is asked to select exactly `body`; the selection itself is a parameter. |
| `MysqlIntrospector.MemberValuesOfList` | src/mysql/mysql-introspector.ts:137-150 | For `enum(...)` or `set(...)` the database is asked to re-select exactly the text the parentheses hold. |
| `MysqlIntrospector.NonEmpty` | src/mysql/mysql-introspector.ts:113 | An empty comment reads as no comment; any other is kept. |
| `MysqlIntrospector.IsEnumOrSet` | src/mysql/mysql-introspector.ts:107 | The `enum`/`set` test. Its contract is stated by `MysqlIntrospector.ToColumn`: member values are present exactly for these two data types. |
| `MysqlIntrospector.ToColumn` | src/mysql/mysql-introspector.ts:103-121 | The flags: nullable iff `YES`, default iff not null, auto-increment and virtual iff lower-cased `EXTRA` contains them, member values iff enum or set. |
| `MysqlIntrospector.AutoIncrementAnyCase` | src/mysql/mysql-introspector.ts:104-115 | `AUTO_INCREMENT` in any case marks the column auto-incrementing. |
| `MysqlIntrospector.BuildTable` | src/mysql/mysql-introspector.ts:92-101 | A table takes name, schema, view flag and comment from its first row and has one column per row. |
| `MysqlIntrospector.VisibleRows` | src/mysql/mysql-introspector.ts:81-85 | The rows the query returns. Its contract is stated by `InformationSchema.WithoutMigrationTables` and `MysqlIntrospector.InternalTablesKept`. |
| `MysqlIntrospector.GetTables` | src/mysql/mysql-introspector.ts:65-125 | One table per group of rows of the same name, in first-row order. Each table takes its name, schema, view flag (`TABLE_TYPE` is not `BASE TABLE`) and comment (`undefined` when empty) from its group's first row, and holds the columns of exactly the rows of its name. No migration table appears unless requested. |
| `MysqlIntrospector.TableNamesDistinct` | src/mysql/mysql-introspector.ts:89-101 | No two tables share a name. |
| `MysqlIntrospector.EveryRowHasItsTable` | src/mysql/mysql-introspector.ts:90-122 | Every returned row's table is among the result. |
| `MysqlIntrospector.TablesInRowOrder` | src/mysql/mysql-introspector.ts:89-124 | Tables come in the order of their first row. |
| `MysqlIntrospector.InternalTablesKept` | src/mysql/mysql-introspector.ts:81-85 | With `withInternalKyselyTables` the migration table appears like any other. |
| `MysqlCollector.ParseWithoutSpace` | src/mysql/mysql-collector.ts:126-130 | A column type without a space is returned whole. |
| `MysqlCollector.ParseColumnType` | src/mysql/mysql-collector.ts:126-130 | `parseColumnType`, slicing from one before the first space. Its contract is stated by `MysqlCollector.ParseWithoutSpace`, `MysqlCollector.ParseLeadingSpace` and `MysqlCollector.ParseKeepsLastCharOfName`. |
| `MysqlCollector.ParseLeadingSpace` | src/mysql/mysql-collector.ts:126-130 | A leading space, index 0, counts as not found: the string is returned whole. |
| `MysqlCollector.ParseKeepsLastCharOfName` | src/mysql/mysql-collector.ts:126-130 | Otherwise the result starts one character before the first space. |
| `MysqlCollector.ParseExamples` | src/mysql/mysql-collector.ts:126-130 | `int unsigned` parses to `t unsigned`; `tinyint(1)` is kept. |
| `MysqlCollector.LookupCast` | src/mysql/mysql-collector.ts:97-103 | The parsed column-type cast wins over the data-type cast; none iff neither key is cast. |
| `MysqlCollector.GetSelectType` | src/mysql/mysql-collector.ts:93-123 | A cast wins over everything, and the only error is the unknown data type. |
| `MysqlCollector.SelectTypeFailsIff` | src/mysql/mysql-collector.ts:93-123 | The select type fails exactly when there is no cast, no JSON column type, no member values and the data type is unknown. |
| `MysqlCollector.MembersSelected` | src/mysql/mysql-collector.ts:113-119 | Without a cast, non-empty enum or set members give the union of their string literals. |
| `MysqlCollector.SelectTypeFallsBackToNative` | src/mysql/mysql-collector.ts:121-122 | Without options or members a known data type gives its native type. |
| `MysqlCollector.MemberUnionText` | src/mysql/mysql-collector.ts:118 | The member union renders as the quoted values joined by ` \| `. |
| `MysqlCollector.NativeSelected` | src/mysql/mysql-collector.ts:105-122 | Without a cast, JSON type or members the select type is `getNativeType`'s result. |
| `MysqlCollector.Refine` | src/mysql/mysql-collector.ts:58-90 | Without a reason to wrap, the result is the select type made nullable when the column is. With one, the result is a single wrapper whose select type is that refined type. |
| `MysqlCollector.GetType` | src/mysql/mysql-collector.ts:55-91 | The column type is the refined select type and fails exactly when the select type does. |
| `MysqlCollector.VirtualIsGeneratedAlways` | src/mysql/mysql-collector.ts:68-70 | A virtual column becomes `GeneratedAlways`, before any other rule. |
| `MysqlCollector.AutoIncrementBeforeJson` | src/mysql/mysql-collector.ts:72-84 | An auto-increment JSON column is `Generated`, not `JSONColumnType`. |
| `MysqlCollector.JsonInsertType` | src/mysql/mysql-collector.ts:76-84 | A JSON column is `JSONColumnType<T, string \| undefined>` with a default and `JSONColumnType<T>` without. |
| `MysqlCollector.CastColumnTypeKept` | src/mysql/mysql-collector.ts:63-66 | A wrapper-typed select on a non-nullable column is not wrapped again. |
| `MysqlCollector.NullableCastWrappedAgain` | src/mysql/mysql-collector.ts:59-88 | On a nullable column with a default, a wrapper cast is made nullable and then wrapped in `Generated`. |
| `MysqlCollector.PlainColumnUnwrapped` | src/mysql/mysql-collector.ts:86-90 | A column with no wrapper reason keeps its refined type. |
| `MysqlCollector.TypeOfSelected` | src/mysql/mysql-collector.ts:55-91 | Once the select type is known, the column type is its refinement. |
| `MysqlCollector.CollectColumns` | src/mysql/mysql-collector.ts:47-51 | Every column maps to name, type and comment in order; failure is the first failing column's error. |
| `MysqlCollector.CollectTables` | src/mysql/mysql-collector.ts:42-53 | Tables keep order, name, schema and comment, with their columns collected; failure iff some table's columns fail. |
| `MysqlCollector.CollectTablesFirstFailure` | src/mysql/mysql-collector.ts:42-53 | A failing run reports the error of the first table whose columns fail, every earlier table's columns succeeding. |
| `MysqlCollectorExamples.TestIdColumn` | src/mysql/mysql-collector.test.ts:122-126 | The auto-increment `bigint` id with a `bigint` cast is `Generated<bigint>`. |
| `MysqlCollectorExamples.TestVarcharColumn` | src/mysql/mysql-collector.test.ts:127-131 | `varchar(200)` hits no cast. |
| `MysqlCollectorExamples.TestVarcharMapping` | src/mysql/mysql-data-types.ts:122 | `varchar` maps to `string`. |
| `MysqlCollectorExamples.TestJsonColumn` | src/mysql/mysql-collector.test.ts:132-136 | The JSON column with a configured type is `JSONColumnType<number[]>`. |
| `MysqlCollectorExamples.TestEnumColumn` | src/mysql/mysql-collector.test.ts:137-144 | The enum column hits no cast. |
| `MysqlCollectorExamples.TestEnumText` | src/mysql/mysql-collector.test.ts:140-143 | The members `foo, bar` render `"foo" \| "bar"`. |
| `MysqlCollectorExamples.TestUnsignedColumn` | src/mysql/mysql-collector.test.ts:150-154 | `int unsigned` hits no cast: its parse is `t unsigned`. |
| `MysqlCollectorExamples.TestIntMapping` | src/mysql/mysql-data-types.ts:107 | `int` maps to `number`. |
| `MysqlCollectorExamples.TestBooleanColumn` | src/mysql/mysql-collector.test.ts:155-159 | `tinyint(1)` is cast to `boolean`. |
| `SqliteCollector.ColumnAffinity` | src/sqlite/sqlite-collector.ts:34-62 | The five rules in order on the upper-cased, trimmed type. Each affinity holds exactly when its rule matches and no earlier rule does. |
| `SqliteCollector.AffinityIgnoresCase` | src/sqlite/sqlite-collector.ts:34-35 | Lower-casing the declared type never changes its affinity. |
| `SqliteCollector.IntWinsEverywhere` | src/sqlite/sqlite-collector.ts:37-39 | `INT` anywhere, even inside `POINT`, gives INTEGER. |
| `SqliteCollector.BlankIsBlob` | src/sqlite/sqlite-collector.ts:35-51 | A declared type of white space only trims to empty and has BLOB affinity. |
| `SqliteCollector.GetColumnType` | src/sqlite/sqlite-collector.ts:72-86 | The affinity's type, made nullable first, then `Generated` exactly when auto-incrementing or defaulted. |
| `SqliteCollector.AffinityType` | src/sqlite/sqlite-collector.ts:64-70 | `DATA_TYPE_MAP`: `number` for integer, real and numeric, `string` for text, `Buffer` for blob. `SqliteCollector.BufferImportIffBlob` states that a column's type imports `Buffer` exactly for the blob affinity. |
| `SqliteCollector.RefinedImports` | src/sqlite/sqlite-collector.ts:75-79 | Nullability adds no import. |
| `SqliteCollector.BufferImportIffBlob` | src/sqlite/sqlite-collector.ts:64-79 | A column imports `Buffer` exactly when its affinity is BLOB. |
| `SqliteCollector.GeneratedImportIffGenerated` | src/sqlite/sqlite-collector.ts:81-83 | A column imports `Generated` exactly when auto-incrementing or defaulted. |
| `SqliteCollector.CollectTables` | src/sqlite/sqlite-collector.ts:12-26 | Tables keep order, name and schema; each column keeps its name and gets its column type. |

## Left out

- The CLI, configuration loading, file output and `generateTypes`/`createIntrospector`: I/O and wiring around the core.
- The SQL queries of both introspectors, `getSchemas`, `getMetadata` and the enum-member `SELECT`. The query result is the input row list. The member re-selection is a function parameter (`ValueSelector`), so `Object.values` order is whatever it returns.
- `classify` of the inflection library: a function parameter.
- `localeCompare`: modelled as plain lexicographic order on character codes, not a locale-aware collation.
- `toUpperCase`, `toLowerCase` and `trim` treat ASCII letters and JavaScript's white-space characters only; no other Unicode case mapping.
- Alias import specifiers are told apart by an explicit identity tag. This stands in for the object identity that a JavaScript `Set` compares by.
- Absent pool flags read as `false`, as JavaScript truthiness does. `PoolConfig` has no other fields.
- `MysqlDataTypes.GetNativeType` and `LegacyDataTypes.GetNativeText` use the own-key guard throughout. The inherited keys (`constructor`, `toString`, ...) that the code's lookups also see are modelled only in the two guard findings below.
- Both collectors spread the introspected table into their result (src/mysql/mysql-collector.ts:45-46, src/sqlite/sqlite-collector.ts:19), so `isView` survives there. The SQLite collector also keeps each column's `dataType`. The model's `TableMetadata` keeps name, schema, comment and columns. `isView` and the extra `dataType` field are dropped because the generator never reads them. Kysely's own SQLite introspector is the input.
- The user maps `typeCasts` and `jsonColumns` are Dafny maps, so no prototype key is ever found in them.
- Numeric literals hold integers, rendered in decimal with a leading `-` when negative. `toString` of fractions, and JavaScript's exponent form for magnitudes of 1e21 and above, are not modelled.
- `Printing.NewPrinter` reads `indentWidth` as a real number, so an explicit `Infinity` or `NaN` cannot be expressed. `repeat` throws on `Infinity` and treats `NaN` as 0.
- The test files need a live database; their expected values appear only as example lemmas.

## Findings

| source | as written | input that shows it | evidently intended | confidence | as-written member | corrected member |
|---|---|---|---|---|---|---|
| src/type.ts:108-127 | `normalizeTypeParams` cuts the list at the first absent parameter, so its defaults are never used | `ColumnType(S, undefined, U)`, given as a user type cast, renders `ColumnType<S>` and loses `U` | the doc comment's behaviour: drop trailing absent parameters and fill earlier gaps with the default, giving `ColumnType<S, S, U>` | not executed | `Types.NormalizeDropsAfterGap`, `Types.ColumnTypeGapAsWritten` | `Types.NormalizeWithDefaultsKeepsPositions`, `Types.IntendedTypeParameters`, `Types.ColumnTypeGapFilled` |
| src/mysql/mysql-data-types.ts:149-151 | `DATA_TYPE_MAP[type] !== undefined` on an object literal also sees inherited properties | `isDataType("constructor")` is true | true exactly for the listed data types | not executed | `MysqlDataTypes.InheritedKeyPassesTheGuard` | `MysqlDataTypes.GetNativeType` |
| src/mysql/introspector.ts:94-98 | the guard uses the legacy `isDataType`, which also sees inherited properties | a column whose `DATA_TYPE` is `toString` passes the guard and no unknown-type error is raised | the unknown-type error for every name outside the table | not executed | `LegacyIntrospector.InheritedKeyPassesLegacyGuard` | `LegacyIntrospector.ColumnFor` |

`Types.TypeParameters`, `Types.Text` and `Types.ImportList` normalise as the
code does, and the generator renders through them. The corrected rendering is
`Types.IntendedText` and `Types.IntendedImportList`, built on
`Types.IntendedTypeParameters`. `Types.IntendedAgreesWithoutGap` proves that
both renderings agree when no present parameter follows an absent one. The
wrappers the collectors build themselves never have such a gap. A user's
`typeCasts` entry can have one: the cast is returned as it is
(src/mysql/mysql-collector.ts:98-103), and a wrapper cast on a non-nullable
column is kept unwrapped (src/mysql/mysql-collector.ts:63-66,
`MysqlCollector.CastColumnTypeKept`). So `ColumnType(S, undefined, U)` given
as a cast reaches the output as `ColumnType<S>`.
