/** The printer of `src/printer.ts`: renders a declaration list as the text
    of a TypeScript module. */
module Printing {
  import opened Wrappers
  import opened Strings
  import opened Imports

  datatype PropertySignature = PropertySignature(name: string, typeText: string, comment: Option<string>)

  /** The declaration kinds. `OtherDecl` stands for any object whose `kind`
      tag is none of `import`, `type`, `interface`. */
  datatype Declaration =
    | ImportDecl(typeImport: TypeImport)
    | TypeDecl(name: string, typeText: string, comment: Option<string>)
    | InterfaceDecl(name: string, properties: seq<PropertySignature>, comment: Option<string>)
    | OtherDecl(kind: string)

  datatype IndentStyle = Tab | Space

  /** A key of an options object: left out, present with the value
      `undefined`, or set to a value. */
  datatype Field<T> = Absent | Undefined | Given(value: T)

  /** `PrinterOptions`: every key may be left out or set to `undefined`.
      `indentWidth` is a JavaScript number, read here as a real. */
  datatype PrinterOptions = PrinterOptions(
    indentStyle: Field<IndentStyle>,
    indentWidth: Field<real>,
    semicolons: Field<bool>)

  const NoOptions := PrinterOptions(Absent, Absent, Absent)

  /** A configured printer: the indentation unit and the statement terminator. */
  datatype Printer = Printer(space: string, semi: string)

  datatype PrintError =
    | InvalidIndentWidth(count: int)
    | UnknownDeclarationKind(kind: string)

  function Repeat(s: string, n: nat): (r: string)
    ensures |r| == n * |s|
    ensures |s| == 1 ==> forall i | 0 <= i < |r| :: r[i] == s[0]
  {
    if n == 0 then "" else s + Repeat(s, n - 1)
  }

  /** `{...defaultOptions, ...opts}` for one key: a key that is present
      replaces the default even when its value is `undefined` (`None`). */
  function Spread<T>(f: Field<T>, default: T): Option<T> {
    match f
    case Absent => Some(default)
    case Undefined => None
    case Given(v) => Some(v)
  }

  /** The count `String.prototype.repeat` reads from a number: `undefined`
      becomes `NaN` and then 0, anything else is truncated toward zero. */
  function RepeatCount(width: Option<real>): (n: int)
    ensures width.None? ==> n == 0
    ensures width.Some? && width.value < 0.0 ==> n <= 0 && n as real - 1.0 < width.value <= n as real
    ensures width.Some? && width.value >= 0.0 ==> n >= 0 && n as real <= width.value < n as real + 1.0
    ensures width.Some? ==> (n < 0 <==> width.value <= -1.0)
  {
    match width
    case None => 0
    case Some(x) => if x >= 0.0 then x.Floor else -((-x).Floor)
  }

  /** The constructor: the options spread over the defaults space, 2 and
      true; `repeat` rejects a count below zero. */
  function NewPrinter(opts: PrinterOptions): (r: Result<Printer, PrintError>)
    ensures r.Err? <==> opts.indentWidth.Given? && opts.indentWidth.value <= -1.0
    ensures r.Ok? && opts.indentWidth.Absent? ==> |r.value.space| == 2
    ensures r.Ok? && opts.indentWidth.Undefined? ==> r.value.space == ""
    ensures r.Ok? && opts.indentWidth.Given? ==>
      && |r.value.space| as real <= (if opts.indentWidth.value < 0.0 then 0.0 else opts.indentWidth.value)
      && (if opts.indentWidth.value < 0.0 then 0.0 else opts.indentWidth.value) < |r.value.space| as real + 1.0
    ensures r.Ok? ==> forall i | 0 <= i < |r.value.space| ::
      r.value.space[i] == (if opts.indentStyle == Given(Tab) then '\t' else ' ')
    ensures r.Ok? ==> (r.value.semi == ";" <==> opts.semicolons.Absent? || opts.semicolons == Given(true))
    ensures r.Ok? ==> (r.value.semi == "" <==> !(opts.semicolons.Absent? || opts.semicolons == Given(true)))
  {
    var style := Spread(opts.indentStyle, Space);
    var count := RepeatCount(Spread(opts.indentWidth, 2.0));
    var semicolons := Spread(opts.semicolons, true);
    if count < 0 then Err(InvalidIndentWidth(count))
    else Ok(Printer(Repeat(if style == Some(Tab) then "\t" else " ", count), if semicolons == Some(true) then ";" else ""))
  }

  /** With no options the indent is two spaces and statements end in `;`. */
  lemma DefaultPrinter()
    ensures NewPrinter(NoOptions) == Ok(Printer("  ", ";"))
  {
    assert RepeatCount(Some(2.0)) == 2;
    assert Repeat(" ", 1) == " ";
    assert Repeat(" ", 2) == "  ";
  }

  /** Keys set to `undefined` override the defaults: no indentation and no
      semicolons. */
  lemma UndefinedOverridesDefaults()
    ensures NewPrinter(PrinterOptions(Undefined, Undefined, Undefined)) == Ok(Printer("", ""))
  {
  }

  /** A fractional width is truncated: 2.5 indents by two spaces, and -0.5
      by none, without an error. */
  lemma FractionalWidths()
    ensures NewPrinter(PrinterOptions(Absent, Given(2.5), Absent)) == Ok(Printer("  ", ";"))
    ensures NewPrinter(PrinterOptions(Absent, Given(-0.5), Absent)) == Ok(Printer("", ";"))
    ensures NewPrinter(PrinterOptions(Absent, Given(-1.0), Absent)).Err?
  {
    assert RepeatCount(Some(2.5)) == 2;
    assert Repeat(" ", 1) == " ";
    assert Repeat(" ", 2) == "  ";
    assert RepeatCount(Some(-0.5)) == 0;
  }

  function PrintSpecifier(s: ImportSpecifier): string {
    match s
    case Named(n) => n
    case Aliased(n, a, _) => n + " as " + a
  }

  function PrintSpecifiers(ss: seq<ImportSpecifier>): (r: seq<string>)
    ensures |r| == |ss|
    ensures forall i | 0 <= i < |ss| :: r[i] == PrintSpecifier(ss[i])
  {
    if |ss| == 0 then [] else [PrintSpecifier(ss[0])] + PrintSpecifiers(ss[1..])
  }

  /** `printImport`: the default import (and `, ` when bindings follow), the
      braced bindings, the module, the terminator and a newline. */
  function PrintImport(p: Printer, imp: TypeImport): string {
    var defaultPart :=
      if Truthy(imp.defaultImport) then imp.defaultImport.value + (if imp.namedBindings.Some? then ", " else "")
      else "";
    var bindingsPart :=
      if imp.namedBindings.Some? then "{ " + Join(PrintSpecifiers(imp.namedBindings.value), ", ") + " }"
      else "";
    "import type " + defaultPart + bindingsPart + " from \"" + imp.moduleSpecifier + "\"" + p.semi + "\n"
  }

  /** An import line with bindings and no default. A present but empty
      binding list still prints its braces. */
  lemma BindingsOnlyLine(p: Printer, imp: TypeImport)
    requires imp.namedBindings.Some? && !Truthy(imp.defaultImport)
    ensures PrintImport(p, imp) == "import type { " + Join(PrintSpecifiers(imp.namedBindings.value), ", ")
      + " } from \"" + imp.moduleSpecifier + "\"" + p.semi + "\n"
    ensures imp.namedBindings.value == [] ==>
      PrintImport(p, imp) == "import type {  } from \"" + imp.moduleSpecifier + "\"" + p.semi + "\n"
  {
    var b := Join(PrintSpecifiers(imp.namedBindings.value), ", ");
    assert PrintImport(p, imp) == "import type " + "" + ("{ " + b + " }") + " from \"" + imp.moduleSpecifier + "\"" + p.semi + "\n";
  }

  /** An import line with a default and bindings: `D, { … }`. */
  lemma DefaultAndBindingsLine(p: Printer, imp: TypeImport)
    requires imp.namedBindings.Some? && Truthy(imp.defaultImport)
    ensures PrintImport(p, imp) == "import type " + imp.defaultImport.value + ", { "
      + Join(PrintSpecifiers(imp.namedBindings.value), ", ") + " } from \"" + imp.moduleSpecifier + "\"" + p.semi + "\n"
  {
    var d, b, tail := imp.defaultImport.value, Join(PrintSpecifiers(imp.namedBindings.value), ", "), " } from \"" + imp.moduleSpecifier + "\"" + p.semi + "\n";
    assert PrintImport(p, imp) == "import type " + (d + ", ") + ("{ " + b + " }") + " from \"" + imp.moduleSpecifier + "\"" + p.semi + "\n";
    assert ", " + "{ " == ", { ";
  }

  /** An import line with a default only, and one with neither (which is
      not valid TypeScript but is what the template yields). */
  lemma DefaultOnlyLine(p: Printer, imp: TypeImport)
    requires imp.namedBindings.None?
    ensures Truthy(imp.defaultImport) ==>
      PrintImport(p, imp) == "import type " + imp.defaultImport.value + " from \"" + imp.moduleSpecifier + "\"" + p.semi + "\n"
    ensures !Truthy(imp.defaultImport) ==>
      PrintImport(p, imp) == "import type  from \"" + imp.moduleSpecifier + "\"" + p.semi + "\n"
  {
    if Truthy(imp.defaultImport) {
      assert PrintImport(p, imp) == "import type " + (imp.defaultImport.value + "") + "" + " from \"" + imp.moduleSpecifier + "\"" + p.semi + "\n";
    } else {
      assert PrintImport(p, imp) == "import type " + "" + "" + " from \"" + imp.moduleSpecifier + "\"" + p.semi + "\n";
    }
  }

  /** `printType`: the comment is not printed. */
  function PrintType(p: Printer, name: string, typeText: string): string {
    "export type " + name + " = " + typeText + p.semi + "\n"
  }

  function PropertyLine(p: Printer, prop: PropertySignature): string {
    p.space + prop.name + ": " + prop.typeText + p.semi + "\n"
  }

  function PropertyLines(p: Printer, props: seq<PropertySignature>): (r: seq<string>)
    ensures |r| == |props|
    ensures forall i | 0 <= i < |props| :: r[i] == PropertyLine(p, props[i])
  {
    if |props| == 0 then [] else [PropertyLine(p, props[0])] + PropertyLines(p, props[1..])
  }

  /** `printInterface`: header, one line per property, closing brace;
      neither comment is printed. */
  function PrintInterface(p: Printer, name: string, props: seq<PropertySignature>): string {
    Join(["export interface " + name + " {\n"] + PropertyLines(p, props) + ["}\n"], "")
  }

  /** The `reduce` that splits imports from the other declarations, both in
      their original order. */
  function Split(decls: seq<Declaration>): (seq<TypeImport>, seq<Declaration>)
  {
    if |decls| == 0 then ([], [])
    else
      var (imports, types) := Split(decls[..|decls| - 1]);
      var current := decls[|decls| - 1];
      if current.ImportDecl? then (imports + [current.typeImport], types)
      else (imports, types + [current])
  }

  /** The second loop of `print`: each non-import declaration and a newline;
      an unknown kind throws. */
  function PrintBody(p: Printer, types: seq<Declaration>): Result<string, PrintError>
  {
    if |types| == 0 then Ok("")
    else
      var decl := types[0];
      var chunk :- match decl
        case TypeDecl(n, t, _) => Ok(PrintType(p, n, t))
        case InterfaceDecl(n, props, _) => Ok(PrintInterface(p, n, props))
        case ImportDecl(_) => Err(UnknownDeclarationKind("import"))
        case OtherDecl(k) => Err(UnknownDeclarationKind(k));
      var rest :- PrintBody(p, types[1..]);
      Ok(chunk + "\n" + rest)
  }

  function PrintImports(p: Printer, imports: seq<TypeImport>): string {
    if |imports| == 0 then "" else PrintImport(p, imports[0]) + PrintImports(p, imports[1..])
  }

  /** `print`. */
  function Print(p: Printer, decls: seq<Declaration>): Result<string, PrintError> {
    var (imports, types) := Split(decls);
    var body :- PrintBody(p, types);
    Ok(PrintImports(p, imports) + (if |imports| > 0 then "\n" else "") + body)
  }

  // ----- the layout of the output -----

  /** The import declarations, in order. */
  function ImportsIn(decls: seq<Declaration>): seq<TypeImport> {
    if |decls| == 0 then []
    else (if decls[0].ImportDecl? then [decls[0].typeImport] else []) + ImportsIn(decls[1..])
  }

  /** The other declarations, in order. */
  function OthersIn(decls: seq<Declaration>): (r: seq<Declaration>)
    ensures forall d | d in r :: !d.ImportDecl?
  {
    if |decls| == 0 then []
    else (if decls[0].ImportDecl? then [] else [decls[0]]) + OthersIn(decls[1..])
  }

  lemma {:induction false} ImportsInSnoc(decls: seq<Declaration>, d: Declaration)
    ensures ImportsIn(decls + [d]) == ImportsIn(decls) + (if d.ImportDecl? then [d.typeImport] else [])
  {
    var last: seq<TypeImport> := if d.ImportDecl? then [d.typeImport] else [];
    if |decls| == 0 {
      assert [d][1..] == [];
      assert ImportsIn([d]) == last + ImportsIn([]);
    } else {
      var s := decls + [d];
      var first: seq<TypeImport> := if decls[0].ImportDecl? then [decls[0].typeImport] else [];
      assert s[0] == decls[0] && s[1..] == decls[1..] + [d];
      ImportsInSnoc(decls[1..], d);
      assert ImportsIn(s) == first + (ImportsIn(decls[1..]) + last);
      assert ImportsIn(decls) == first + ImportsIn(decls[1..]);
    }
  }

  lemma {:induction false} OthersInSnoc(decls: seq<Declaration>, d: Declaration)
    ensures OthersIn(decls + [d]) == OthersIn(decls) + (if d.ImportDecl? then [] else [d])
  {
    var last: seq<Declaration> := if d.ImportDecl? then [] else [d];
    if |decls| == 0 {
      assert [d][1..] == [];
      assert OthersIn([d]) == last + OthersIn([]);
    } else {
      var s := decls + [d];
      var first: seq<Declaration> := if decls[0].ImportDecl? then [] else [decls[0]];
      assert s[0] == decls[0] && s[1..] == decls[1..] + [d];
      OthersInSnoc(decls[1..], d);
      assert OthersIn(s) == first + (OthersIn(decls[1..]) + last);
      assert OthersIn(decls) == first + OthersIn(decls[1..]);
    }
  }

  /** The `reduce` keeps each group in input order. */
  lemma {:induction false} SplitKeepsOrder(decls: seq<Declaration>)
    ensures Split(decls).0 == ImportsIn(decls)
    ensures Split(decls).1 == OthersIn(decls)
  {
    if |decls| > 0 {
      var init := decls[..|decls| - 1];
      var last := decls[|decls| - 1];
      SplitKeepsOrder(init);
      ImportsInSnoc(init, last);
      OthersInSnoc(init, last);
      assert init + [last] == decls;
    }
  }

  /** Every other declaration is kept, and nothing else. */
  lemma {:induction false} OthersInMembers(decls: seq<Declaration>)
    ensures forall d :: d in OthersIn(decls) <==> d in decls && !d.ImportDecl?
  {
    if |decls| > 0 {
      OthersInMembers(decls[1..]);
      assert forall d :: d in decls <==> d == decls[0] || d in decls[1..];
    }
  }

  predicate Printable(d: Declaration) {
    d.ImportDecl? || d.TypeDecl? || d.InterfaceDecl?
  }

  /** How one non-import declaration prints, followed by its newline. */
  function DeclText(p: Printer, d: Declaration): string {
    match d
    case TypeDecl(n, t, _) => PrintType(p, n, t) + "\n"
    case InterfaceDecl(n, props, _) => PrintInterface(p, n, props) + "\n"
    case _ => ""
  }

  function DeclTexts(p: Printer, ds: seq<Declaration>): string {
    if |ds| == 0 then "" else DeclText(p, ds[0]) + DeclTexts(p, ds[1..])
  }

  lemma {:induction false} PrintBodyLayout(p: Printer, ds: seq<Declaration>)
    ensures PrintBody(p, ds).Ok? <==> forall d | d in ds :: d.TypeDecl? || d.InterfaceDecl?
    ensures PrintBody(p, ds).Ok? ==> PrintBody(p, ds).value == DeclTexts(p, ds)
  {
    if |ds| > 0 {
      PrintBodyLayout(p, ds[1..]);
      assert forall d :: d in ds <==> d == ds[0] || d in ds[1..];
    }
  }

  /** `print` writes every import line in input order, then one extra
      newline iff there was an import, then every other declaration in
      input order, each followed by a newline; it fails exactly when some
      declaration has an unknown kind. */
  lemma PrintLayout(p: Printer, decls: seq<Declaration>)
    ensures Print(p, decls).Ok? <==> forall d | d in decls :: Printable(d)
    ensures Print(p, decls).Ok? ==>
      Print(p, decls).value ==
        PrintImports(p, ImportsIn(decls))
        + (if |ImportsIn(decls)| > 0 then "\n" else "")
        + DeclTexts(p, OthersIn(decls))
  {
    SplitKeepsOrder(decls);
    PrintBodyLayout(p, OthersIn(decls));
    OthersInMembers(decls);
  }

  // ----- comments -----

  function StripProperties(props: seq<PropertySignature>): (r: seq<PropertySignature>)
    ensures |r| == |props|
  {
    if |props| == 0 then [] else [props[0].(comment := None)] + StripProperties(props[1..])
  }

  function StripComment(d: Declaration): Declaration {
    match d
    case TypeDecl(n, t, _) => TypeDecl(n, t, None)
    case InterfaceDecl(n, props, _) => InterfaceDecl(n, StripProperties(props), None)
    case _ => d
  }

  function StripComments(decls: seq<Declaration>): seq<Declaration> {
    if |decls| == 0 then [] else [StripComment(decls[0])] + StripComments(decls[1..])
  }

  lemma {:induction false} PropertyLinesIgnoreComments(p: Printer, props: seq<PropertySignature>)
    ensures PropertyLines(p, StripProperties(props)) == PropertyLines(p, props)
  {
    if |props| > 0 {
      PropertyLinesIgnoreComments(p, props[1..]);
      assert StripProperties(props)[1..] == StripProperties(props[1..]);
    }
  }

  lemma {:induction false} StripKeepsImports(decls: seq<Declaration>)
    ensures ImportsIn(StripComments(decls)) == ImportsIn(decls)
  {
    if |decls| > 0 {
      StripKeepsImports(decls[1..]);
      var st := StripComments(decls);
      assert st[1..] == StripComments(decls[1..]);
      assert st[0] == StripComment(decls[0]);
    }
  }

  lemma {:induction false} StripKeepsOthers(decls: seq<Declaration>)
    ensures OthersIn(StripComments(decls)) == StripComments(OthersIn(decls))
  {
    if |decls| > 0 {
      StripKeepsOthers(decls[1..]);
      var st := StripComments(decls);
      assert st[1..] == StripComments(decls[1..]);
      assert st[0] == StripComment(decls[0]);
      var o := OthersIn(decls);
      if decls[0].ImportDecl? {
        assert o == OthersIn(decls[1..]);
        assert OthersIn(st) == OthersIn(st[1..]);
      } else {
        assert o[0] == decls[0] && o[1..] == OthersIn(decls[1..]);
        assert OthersIn(st) == [st[0]] + OthersIn(st[1..]);
        assert StripComments(o) == [StripComment(o[0])] + StripComments(o[1..]);
      }
    }
  }

  lemma {:induction false} PrintBodyIgnoresComments(p: Printer, ds: seq<Declaration>)
    ensures PrintBody(p, StripComments(ds)) == PrintBody(p, ds)
  {
    if |ds| > 0 {
      PrintBodyIgnoresComments(p, ds[1..]);
      assert StripComments(ds)[1..] == StripComments(ds[1..]);
      if ds[0].InterfaceDecl? {
        PropertyLinesIgnoreComments(p, ds[0].properties);
      }
    }
  }

  /** Declaration and property comments never reach the output. */
  lemma CommentsNeverPrinted(p: Printer, decls: seq<Declaration>)
    ensures Print(p, StripComments(decls)) == Print(p, decls)
  {
    SplitKeepsOrder(decls);
    SplitKeepsOrder(StripComments(decls));
    StripKeepsImports(decls);
    StripKeepsOthers(decls);
    PrintBodyIgnoresComments(p, OthersIn(decls));
  }

  // ----- the cases of printer.test.ts -----

  const DefaultPrinterValue := Printer("  ", ";")

  /** A list of imports alone prints as the import lines and the blank line. */
  lemma {:induction false} ImportsOnly(p: Printer, decls: seq<Declaration>)
    requires forall d | d in decls :: d.ImportDecl?
    ensures Print(p, decls) == Ok(PrintImports(p, ImportsIn(decls)) + (if |ImportsIn(decls)| > 0 then "\n" else ""))
  {
    PrintLayout(p, decls);
    OthersInMembers(decls);
    assert OthersIn(decls) == [];
    assert forall d | d in decls :: Printable(d);
    var head := PrintImports(p, ImportsIn(decls)) + (if |ImportsIn(decls)| > 0 then "\n" else "");
    assert Print(p, decls).value == head + DeclTexts(p, []);
    assert head + DeclTexts(p, []) == head;
  }

  lemma KyselyImportLine()
    ensures PrintImport(DefaultPrinterValue, TypeImport("kysely", None, Some([Named("Generated"), Named("ColumnType")])))
      == "import type { Generated, ColumnType } from \"kysely\";" + "\n"
  {
    KyselyBindingsText();
    BindingsOnlyLine(DefaultPrinterValue, TypeImport("kysely", None, Some([Named("Generated"), Named("ColumnType")])));
    KyselyLineText();
  }

  lemma KyselyBindingsText()
    ensures Join(PrintSpecifiers([Named("Generated"), Named("ColumnType")]), ", ") == "Generated, ColumnType"
  {
    assert PrintSpecifiers([Named("Generated"), Named("ColumnType")]) == ["Generated", "ColumnType"];
    assert Join(["Generated", "ColumnType"], ", ") == "Generated" + ", " + "ColumnType";
    assert "Generated" + ", " == "Generated, ";
    assert "Generated, " + "ColumnType" == "Generated, ColumnType";
  }

  lemma KyselyLineText()
    ensures "import type { " + "Generated, ColumnType" + " } from \"" + "kysely" + "\"" + ";" + "\n"
      == "import type { Generated, ColumnType } from \"kysely\";" + "\n"
  {
    assert "import type { " + "Generated, ColumnType" == "import type { Generated, ColumnType";
    assert "import type { Generated, ColumnType" + " } from \"" == "import type { Generated, ColumnType } from \"";
    assert "import type { Generated, ColumnType } from \"" + "kysely" == "import type { Generated, ColumnType } from \"kysely";
    assert "import type { Generated, ColumnType } from \"kysely" + "\"" == "import type { Generated, ColumnType } from \"kysely\"";
    assert "import type { Generated, ColumnType } from \"kysely\"" + ";" == "import type { Generated, ColumnType } from \"kysely\";";
  }

  lemma BufferImportLine()
    ensures PrintImport(DefaultPrinterValue, TypeImport("node:buffer", None, Some([Named("Buffer")])))
      == "import type { Buffer } from \"node:buffer\";" + "\n"
  {
    assert PrintSpecifiers([Named("Buffer")]) == ["Buffer"];
    BindingsOnlyLine(DefaultPrinterValue, TypeImport("node:buffer", None, Some([Named("Buffer")])));
    assert "import type { " + "Buffer" == "import type { Buffer";
    assert "import type { Buffer" + " } from \"" == "import type { Buffer } from \"";
    assert "import type { Buffer } from \"" + "node:buffer" == "import type { Buffer } from \"node:buffer";
    assert "import type { Buffer } from \"node:buffer" + "\"" == "import type { Buffer } from \"node:buffer\"";
    assert "import type { Buffer } from \"node:buffer\"" + ";" == "import type { Buffer } from \"node:buffer\";";
  }

  lemma ImportsExample()
    ensures Print(DefaultPrinterValue, [
      ImportDecl(TypeImport("kysely", None, Some([Named("Generated"), Named("ColumnType")]))),
      ImportDecl(TypeImport("node:buffer", None, Some([Named("Buffer")])))])
      == Ok(Join([
        "import type { Generated, ColumnType } from \"kysely\";",
        "import type { Buffer } from \"node:buffer\";",
        "\n"], "\n"))
  {
    var a := TypeImport("kysely", None, Some([Named("Generated"), Named("ColumnType")]));
    var b := TypeImport("node:buffer", None, Some([Named("Buffer")]));
    TwoImportsPrint(DefaultPrinterValue, a, b);
    KyselyImportLine();
    BufferImportLine();
    LinesJoined("import type { Generated, ColumnType } from \"kysely\";", "import type { Buffer } from \"node:buffer\";");
  }

  /** Two terminated lines and a blank line are the join the tests write. */
  lemma LinesJoined(x: string, y: string)
    ensures x + "\n" + (y + "\n") + "\n" == Join([x, y, "\n"], "\n")
  {
    JoinTriple(x, y, "\n", "\n");
  }

  /** Two imports print as their two lines and the blank line. */
  lemma TwoImportsPrint(p: Printer, a: TypeImport, b: TypeImport)
    ensures Print(p, [ImportDecl(a), ImportDecl(b)]) == Ok(PrintImport(p, a) + PrintImport(p, b) + "\n")
  {
    var decls := [ImportDecl(a), ImportDecl(b)];
    assert ImportsIn(decls) == [a, b] by {
      assert decls[1..] == [ImportDecl(b)] && decls[1..][1..] == [];
      assert ImportsIn(decls[1..]) == [b] + ImportsIn([]);
      assert ImportsIn(decls) == [a] + ImportsIn(decls[1..]);
    }
    assert PrintImports(p, [a, b]) == PrintImport(p, a) + PrintImport(p, b) by {
      assert [a, b][1..] == [b];
      assert PrintImports(p, [b]) == PrintImport(p, b) + PrintImports(p, []);
    }
    ImportsOnly(p, decls);
  }

  lemma DefaultImportExample()
    ensures Print(DefaultPrinterValue, [ImportDecl(TypeImport("node:buffer", Some("Buffer"), None))])
      == Ok("import type Buffer from \"node:buffer\";\n\n")
  {
    var p := DefaultPrinterValue;
    var a := TypeImport("node:buffer", Some("Buffer"), None);
    assert ImportsIn([ImportDecl(a)]) == [a] by {
      assert [ImportDecl(a)][1..] == [];
      assert ImportsIn([ImportDecl(a)]) == [a] + ImportsIn([]);
    }
    assert PrintImport(p, a) == "import type Buffer from \"node:buffer\";\n" by {
      DefaultOnlyLine(p, a);
      assert "import type " + "Buffer" == "import type Buffer";
      assert "import type Buffer" + " from \"" == "import type Buffer from \"";
      assert "import type Buffer from \"" + "node:buffer" == "import type Buffer from \"node:buffer";
      assert "import type Buffer from \"node:buffer" + "\"" == "import type Buffer from \"node:buffer\"";
      assert "import type Buffer from \"node:buffer\"" + ";" == "import type Buffer from \"node:buffer\";";
    }
    assert PrintImports(p, [a]) == PrintImport(p, a) + PrintImports(p, []);
    assert "import type Buffer from \"node:buffer\";\n" + "" + "\n" == "import type Buffer from \"node:buffer\";\n\n";
    ImportsOnly(p, [ImportDecl(a)]);
  }

  /** A single non-import declaration prints as its own text and nothing else. */
  lemma {:induction false} SingleDeclaration(p: Printer, d: Declaration)
    requires d.TypeDecl? || d.InterfaceDecl?
    ensures Print(p, [d]) == Ok(DeclText(p, d))
  {
    assert [d][..0] == [] && [d][1..] == [];
    assert Split([]) == ([], []);
    assert [d][|[d]| - 1] == d && [] + [d] == [d];
    assert Split([d]) == ([], [d]);
    assert PrintBody(p, [d][1..]) == Ok("");
    var chunk := if d.TypeDecl? then PrintType(p, d.name, d.typeText) else PrintInterface(p, d.name, d.properties);
    assert DeclText(p, d) == chunk + "\n" + "";
    assert PrintBody(p, [d]) == Ok(DeclText(p, d));
    assert PrintImports(p, []) == "";
    assert Print(p, [d]) == Ok(PrintImports(p, []) + "" + DeclText(p, d));
    assert PrintImports(p, []) + "" + DeclText(p, d) == DeclText(p, d);
  }

  lemma TypeExample()
    ensures Print(DefaultPrinterValue, [TypeDecl("Person", "Selectable<PersonTable>", None)])
      == Ok("export type Person = Selectable<PersonTable>;\n\n")
  {
    var p := DefaultPrinterValue;
    var d := TypeDecl("Person", "Selectable<PersonTable>", None);
    PersonTypeText();
    SingleDeclaration(p, d);
  }

  lemma PersonTypeText()
    ensures "export type " + "Person" + " = " + "Selectable<PersonTable>" + ";" + "\n" + "\n"
      == "export type Person = Selectable<PersonTable>;\n\n"
  {
    assert "export type " + "Person" == "export type Person";
    assert "export type Person" + " = " == "export type Person = ";
    assert "export type Person = " + "Selectable<PersonTable>" == "export type Person = Selectable<PersonTable>";
    assert "export type Person = Selectable<PersonTable>" + ";" == "export type Person = Selectable<PersonTable>;";
    assert "export type Person = Selectable<PersonTable>;" + "\n" == "export type Person = Selectable<PersonTable>;\n";
  }

  lemma PersonTableLines(p: Printer, props: seq<PropertySignature>)
    requires p == DefaultPrinterValue
    requires props == [PropertySignature("id", "Generated<number>", None), PropertySignature("first_name", "string", None)]
    ensures ["export interface " + "PersonTable" + " {\n"] + PropertyLines(p, props) + ["}\n"]
      == ["export interface PersonTable {\n", "  id: Generated<number>;\n", "  first_name: string;\n", "}\n"]
  {
    assert PropertyLine(p, props[0]) == "  id: Generated<number>;\n";
    assert PropertyLine(p, props[1]) == "  first_name: string;\n";
    var lines := PropertyLines(p, props);
    assert lines[0] == "  id: Generated<number>;\n" && lines[1] == "  first_name: string;\n";
    assert lines == ["  id: Generated<number>;\n", "  first_name: string;\n"];
    assert "export interface " + "PersonTable" + " {\n" == "export interface PersonTable {\n";
  }

  lemma JoinFour(a: string, b: string, c: string, d: string)
    ensures Join([a, b, c, d], "") == a + b + c + d
  {
    var parts := [a, b, c, d];
    assert parts[1..] == [b, c, d];
    assert parts[1..][1..] == [c, d];
    assert parts[1..][1..][1..] == [d];
    assert Join([c, d], "") == c + "" + d;
    assert Join([b, c, d], "") == b + "" + Join([c, d], "");
    assert Join(parts, "") == a + "" + Join([b, c, d], "");
  }

  lemma PersonTableText()
    ensures "export interface PersonTable {\n" + "  id: Generated<number>;\n" + "  first_name: string;\n" + "}\n" + "\n"
      == "export interface PersonTable {\n  id: Generated<number>;\n  first_name: string;\n}\n\n"
  {
    assert "export interface PersonTable {\n" + "  id: Generated<number>;\n" == "export interface PersonTable {\n  id: Generated<number>;\n";
    assert "export interface PersonTable {\n  id: Generated<number>;\n" + "  first_name: string;\n"
      == "export interface PersonTable {\n  id: Generated<number>;\n  first_name: string;\n";
    assert "export interface PersonTable {\n  id: Generated<number>;\n  first_name: string;\n" + "}\n"
      == "export interface PersonTable {\n  id: Generated<number>;\n  first_name: string;\n}\n";
    assert "export interface PersonTable {\n  id: Generated<number>;\n  first_name: string;\n}\n" + "\n"
      == "export interface PersonTable {\n  id: Generated<number>;\n  first_name: string;\n}\n\n";
  }

  lemma InterfaceExample()
    ensures Print(DefaultPrinterValue, [InterfaceDecl("PersonTable", [
      PropertySignature("id", "Generated<number>", None),
      PropertySignature("first_name", "string", None)], None)])
      == Ok("export interface PersonTable {\n  id: Generated<number>;\n  first_name: string;\n}\n\n")
  {
    var p := DefaultPrinterValue;
    var props := [PropertySignature("id", "Generated<number>", None), PropertySignature("first_name", "string", None)];
    var d := InterfaceDecl("PersonTable", props, None);
    var head, l0, l1, tail := "export interface PersonTable {\n", "  id: Generated<number>;\n", "  first_name: string;\n", "}\n";
    assert PrintInterface(p, "PersonTable", props) == head + l0 + l1 + tail by {
      PersonTableLines(p, props);
      JoinFour(head, l0, l1, tail);
    }
    assert DeclText(p, d) == head + l0 + l1 + tail + "\n";
    PersonTableText();
    SingleDeclaration(p, d);
  }
}
