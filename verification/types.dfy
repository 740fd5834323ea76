/** The type algebra of `src/type.ts`: immutable TypeScript type expressions,
    each with its rendered text and its flattened list of imports. */
module Types {
  import opened Wrappers
  import opened Strings
  import opened Imports

  datatype Op = UnionOp | IntersectionOp

  /** The operator between single spaces, as the compound's `join` puts it
      between operand texts. */
  function Separator(op: Op): string {
    match op
    case UnionOp => " | "
    case IntersectionOp => " & "
  }

  /** One variant per class of the source. `Plain` is `createType(type, imports)`
      (absent imports are the empty list). A `Compound` built by `MakeCompound`
      holds its operands already flattened, as the class constructor does. */
  datatype Type =
    | Plain(text: string, importList: seq<TypeImport>)
    | StringLiteral(str: string)
    | NumericLiteral(num: int)
    | Compound(op: Op, members: seq<Type>)
    | ArrayOf(element: Type)
    | ColumnType(selectType: Type, insertType: Option<Type>, updateType: Option<Type>)
    | JSONColumnType(selectType: Type, insertType: Option<Type>, updateType: Option<Type>)
    | Generated(selectType: Type)
    | GeneratedAlways(selectType: Type)

  // ----- the `Type` helper object -----

  const Number := Plain("number", [])
  const String := Plain("string", [])
  const Boolean := Plain("boolean", [])
  const BigInt := Plain("bigint", [])
  const Null := Plain("null", [])
  const Undefined := Plain("undefined", [])
  const Never := Plain("never", [])
  const Any := Plain("any", [])
  const Unknown := Plain("unknown", [])
  const Date := Plain("Date", [])

  /** `createImportedType(name, from)`: a named type backed by one named import. */
  function Imported(name: string, from: string): Type {
    Plain(name, [TypeImport(from, None, Some([Named(name)]))])
  }

  const Buffer := Imported("Buffer", "node:buffer")

  /** The one import each wrapper class adds for itself. */
  function KyselyImport(name: string): TypeImport {
    TypeImport("kysely", None, Some([Named(name)]))
  }

  // ----- compound construction -----

  /** The constructor's `flatMap`: an operand that is a compound of the same
      operator contributes its members, any other operand contributes itself. */
  function Operands(op: Op, ts: seq<Type>): seq<Type>
    decreases |ts|
  {
    if |ts| == 0 then []
    else
      var head := if ts[0].Compound? && ts[0].op == op then ts[0].members else [ts[0]];
      head + Operands(op, ts[1..])
  }

  function MakeCompound(op: Op, ts: seq<Type>): Type {
    Compound(op, Operands(op, ts))
  }

  function Union(ts: seq<Type>): Type {
    MakeCompound(UnionOp, ts)
  }

  function Intersection(ts: seq<Type>): Type {
    MakeCompound(IntersectionOp, ts)
  }

  function Nullable(t: Type): Type {
    Union([t, Null])
  }

  function Optional(t: Type): Type {
    Union([t, Undefined])
  }

  // ----- generic parameters -----

  /** `params.indexOf(undefined)`, with "not found" read as the full length. */
  function FirstAbsent<T>(params: seq<Option<T>>): (end: nat)
    ensures end <= |params|
    ensures forall i | 0 <= i < end :: params[i].Some?
    ensures end < |params| ==> params[end].None?
  {
    if |params| == 0 || params[0].None? then 0 else 1 + FirstAbsent(params[1..])
  }

  /** `normalizeTypeParams(params, default)` as written: keep the parameters
      before the first absent one; the default substitution applies only to
      absent entries of that prefix, and there are none. */
  function NormalizeTypeParams<T>(params: seq<Option<T>>, default: T): (r: seq<T>)
  {
    var kept := params[..FirstAbsent(params)];
    seq(|kept|, i requires 0 <= i < |kept| => if kept[i].Some? then kept[i].value else default)
  }

  /** The result is the present prefix: no absent slot, never longer than
      the input, stopping exactly at the first gap. */
  lemma NormalizeIsPresentPrefix<T>(params: seq<Option<T>>, default: T)
    ensures |NormalizeTypeParams(params, default)| <= |params|
    ensures forall i | 0 <= i < |NormalizeTypeParams(params, default)| ::
      params[i] == Some(NormalizeTypeParams(params, default)[i])
    ensures |NormalizeTypeParams(params, default)| < |params| ==>
      params[|NormalizeTypeParams(params, default)|].None?
  {
  }

  /** The default never reaches the result, despite the doc comment at
      src/type.ts:108-113. */
  lemma NormalizeIgnoresDefault<T>(params: seq<Option<T>>, d1: T, d2: T)
    ensures NormalizeTypeParams(params, d1) == NormalizeTypeParams(params, d2)
  {
  }

  /** A present parameter after a gap is dropped, not kept with the gap filled. */
  lemma NormalizeDropsAfterGap<T>(a: T, b: T, d: T)
    ensures NormalizeTypeParams([Some(a), None, Some(b)], d) == [a]
  {
    assert FirstAbsent([Some(a), None, Some(b)]) == 1 by {
      assert [Some(a), None, Some(b)][1..] == [None, Some(b)];
    }
  }

  // ----- generic parameters, as the doc comment describes them -----

  /** One past the last present parameter; 0 when none is present. */
  function LastPresentEnd<T>(params: seq<Option<T>>): (end: nat)
    ensures end <= |params|
    ensures forall i | end <= i < |params| :: params[i].None?
    ensures end > 0 ==> params[end - 1].Some?
  {
    if |params| == 0 then 0
    else
      var rest := LastPresentEnd(params[1..]);
      if rest > 0 || params[0].Some? then 1 + rest else 0
  }

  /** `normalizeTypeParams` as its doc comment describes it: the trailing
      absent parameters are removed and every absent parameter before the
      last present one becomes the default, so each present parameter keeps
      its position. */
  function NormalizeWithDefaults<T>(params: seq<Option<T>>, default: T): (r: seq<T>)
  {
    var kept := params[..LastPresentEnd(params)];
    seq(|kept|, i requires 0 <= i < |kept| => if kept[i].Some? then kept[i].value else default)
  }

  /** The promise of the doc comment: no present parameter is lost or moved,
      the gaps before it read the default, and nothing follows the last
      present parameter. */
  lemma NormalizeWithDefaultsKeepsPositions<T>(params: seq<Option<T>>, default: T)
    ensures var r := NormalizeWithDefaults(params, default);
      && (forall i | 0 <= i < |params| && params[i].Some? :: i < |r| && r[i] == params[i].value)
      && (forall i | 0 <= i < |r| && params[i].None? :: r[i] == default)
      && (forall i | |r| <= i < |params| :: params[i].None?)
      && (|r| > 0 ==> params[|r| - 1].Some?)
  {
  }

  /** Where no present parameter follows a gap, the code as written and the
      described behaviour agree. */
  lemma {:induction false} NormalizeAgreesWithoutGap<T>(params: seq<Option<T>>, default: T)
    requires forall i, j | 0 <= i < j < |params| :: params[i].None? ==> params[j].None?
    ensures NormalizeWithDefaults(params, default) == NormalizeTypeParams(params, default)
  {
    GaplessEnds(params);
  }

  lemma {:induction false} GaplessEnds<T>(params: seq<Option<T>>)
    requires forall i, j | 0 <= i < j < |params| :: params[i].None? ==> params[j].None?
    ensures LastPresentEnd(params) == FirstAbsent(params)
  {
    if |params| > 0 {
      GaplessEnds(params[1..]);
      if params[0].None? {
        assert forall j | 0 <= j < |params[1..]| :: params[1..][j].None? by {
          forall j | 0 <= j < |params[1..]| ensures params[1..][j].None? {
            assert params[1..][j] == params[j + 1];
          }
        }
        NoneEnd(params[1..]);
      }
    }
  }

  lemma {:induction false} NoneEnd<T>(params: seq<Option<T>>)
    requires forall i | 0 <= i < |params| :: params[i].None?
    ensures LastPresentEnd(params) == 0
  {
    if |params| > 0 {
      NoneEnd(params[1..]);
    }
  }

  /** Normalising with defaults commutes with mapping every present
      parameter and the default alike. */
  lemma NormalizeWithDefaultsMap<T, U>(params: seq<Option<T>>, mapped: seq<Option<U>>, f: T -> U, d: T)
    requires |mapped| == |params|
    requires forall i | 0 <= i < |params| ::
      mapped[i] == if params[i].Some? then Some(f(params[i].value)) else None
    ensures |NormalizeWithDefaults(mapped, f(d))| == |NormalizeWithDefaults(params, d)|
    ensures forall i | 0 <= i < |NormalizeWithDefaults(params, d)| ::
      NormalizeWithDefaults(mapped, f(d))[i] == f(NormalizeWithDefaults(params, d)[i])
  {
    LastPresentEndMap(params, mapped);
  }

  lemma {:induction false} LastPresentEndMap<T, U>(params: seq<Option<T>>, mapped: seq<Option<U>>)
    requires |mapped| == |params|
    requires forall i | 0 <= i < |params| :: mapped[i].Some? == params[i].Some?
    ensures LastPresentEnd(mapped) == LastPresentEnd(params)
  {
    if |params| > 0 {
      LastPresentEndMap(params[1..], mapped[1..]);
    }
  }

  /** Normalising as written commutes with mapping every present parameter. */
  lemma NormalizeTypeParamsMap<T, U>(params: seq<Option<T>>, mapped: seq<Option<U>>, f: T -> U, d: T, e: U)
    requires |mapped| == |params|
    requires forall i | 0 <= i < |params| ::
      mapped[i] == if params[i].Some? then Some(f(params[i].value)) else None
    ensures |NormalizeTypeParams(mapped, e)| == |NormalizeTypeParams(params, d)|
    ensures forall i | 0 <= i < |NormalizeTypeParams(params, d)| ::
      NormalizeTypeParams(mapped, e)[i] == f(NormalizeTypeParams(params, d)[i])
  {
    FirstAbsentMap(params, mapped);
  }

  lemma {:induction false} FirstAbsentMap<T, U>(params: seq<Option<T>>, mapped: seq<Option<U>>)
    requires |mapped| == |params|
    requires forall i | 0 <= i < |params| :: mapped[i].Some? == params[i].Some?
    ensures FirstAbsent(mapped) == FirstAbsent(params)
  {
    if |params| > 0 {
      FirstAbsentMap(params[1..], mapped[1..]);
    }
  }

  /** `typeParameters` of `ColumnType` (default: the select type) and of
      `JSONColumnType` (default: `string`), normalised as the code does it. */
  function TypeParameters(t: Type): seq<Type>
    requires t.ColumnType? || t.JSONColumnType?
  {
    var d := if t.ColumnType? then t.selectType else String;
    NormalizeTypeParams([Some(t.selectType), t.insertType, t.updateType], d)
  }

  // ----- rendering -----

  predicate IsAlphanumericChar(c: char) {
    ('a' <= c <= 'z') || ('A' <= c <= 'Z') || ('0' <= c <= '9')
  }

  /** The test `/^[a-zA-Z0-9]+$/`. */
  predicate IsAlphanumeric(s: string) {
    |s| > 0 && forall i | 0 <= i < |s| :: IsAlphanumericChar(s[i])
  }

  function Quote(v: string): string {
    "\"" + v + "\""
  }

  /** Each value wrapped in double quotes, as a string literal type prints. */
  function QuotedValues(values: seq<string>): (r: seq<string>)
    ensures |r| == |values|
    ensures forall i | 0 <= i < |values| :: r[i] == Quote(values[i])
  {
    seq(|values|, i requires 0 <= i < |values| => Quote(values[i]))
  }

  function WrapperName(t: Type): string
    requires t.ColumnType? || t.JSONColumnType? || t.Generated? || t.GeneratedAlways?
  {
    match t
    case ColumnType(_, _, _) => "ColumnType"
    case JSONColumnType(_, _, _) => "JSONColumnType"
    case Generated(_) => "Generated"
    case GeneratedAlways(_) => "GeneratedAlways"
  }

  /** The `type` getter of every class. */
  function Text(t: Type): string
    decreases t, 1
  {
    match t
    case Plain(s, _) => s
    case StringLiteral(v) => Quote(v)
    case NumericLiteral(n) => IntToString(n)
    case Compound(op, ms) => Join(Texts(ms), Separator(op))
    case ArrayOf(e) =>
      var et := Text(e);
      if IsAlphanumeric(et) then et + "[]" else "Array<" + et + ">"
    case ColumnType(s, i, u) =>
      var st := Text(s);
      "ColumnType<" + Join(NormalizeTypeParams([Some(st), OptText(i), OptText(u)], st), ", ") + ">"
    case JSONColumnType(s, i, u) =>
      "JSONColumnType<" + Join(NormalizeTypeParams([Some(Text(s)), OptText(i), OptText(u)], "string"), ", ") + ">"
    case Generated(s) => "Generated<" + Text(s) + ">"
    case GeneratedAlways(s) => "GeneratedAlways<" + Text(s) + ">"
  }

  function OptText(o: Option<Type>): Option<string>
    decreases o, 0
  {
    match o
    case None => None
    case Some(x) => Some(Text(x))
  }

  function Texts(ts: seq<Type>): (r: seq<string>)
    ensures |r| == |ts|
    ensures forall i | 0 <= i < |ts| :: r[i] == Text(ts[i])
    decreases ts, 0
  {
    if |ts| == 0 then [] else [Text(ts[0])] + Texts(ts[1..])
  }

  function Concat<T>(ss: seq<seq<T>>): seq<T>
  {
    if |ss| == 0 then [] else ss[0] + Concat(ss[1..])
  }

  lemma {:induction false} ConcatAppend<T>(a: seq<seq<T>>, b: seq<seq<T>>)
    ensures Concat(a + b) == Concat(a) + Concat(b)
  {
    if |a| == 0 {
      assert a + b == b;
    } else {
      assert (a + b)[1..] == a[1..] + b;
      ConcatAppend(a[1..], b);
    }
  }

  /** The `imports` getter of every class, with an absent list read as empty
      (every consumer reads it through `?? []` or a truthiness test). */
  function ImportList(t: Type): seq<TypeImport>
    decreases t, 1
  {
    match t
    case Plain(_, imps) => imps
    case StringLiteral(_) => []
    case NumericLiteral(_) => []
    case Compound(_, ms) => ImportListOf(ms)
    case ArrayOf(e) => ImportList(e)
    case ColumnType(s, i, u) =>
      var si := ImportList(s);
      Concat(NormalizeTypeParams([Some(si), OptImportList(i), OptImportList(u)], si)) + [KyselyImport("ColumnType")]
    case JSONColumnType(s, i, u) =>
      Concat(NormalizeTypeParams([Some(ImportList(s)), OptImportList(i), OptImportList(u)], [])) + [KyselyImport("JSONColumnType")]
    case Generated(s) => ImportList(s) + [KyselyImport("Generated")]
    case GeneratedAlways(s) => ImportList(s) + [KyselyImport("GeneratedAlways")]
  }

  function OptImportList(o: Option<Type>): Option<seq<TypeImport>>
    decreases o, 0
  {
    match o
    case None => None
    case Some(x) => Some(ImportList(x))
  }

  /** `types.flatMap(t => t.imports ?? [])`. */
  function ImportListOf(ts: seq<Type>): seq<TypeImport>
    decreases ts, 0
  {
    if |ts| == 0 then [] else ImportList(ts[0]) + ImportListOf(ts[1..])
  }

  // ----- the wrapper test -----

  /** The probe `!!type.selectType`: only the four wrapper classes have the field. */
  function SelectTypeField(t: Type): Option<Type> {
    match t
    case ColumnType(s, _, _) => Some(s)
    case JSONColumnType(s, _, _) => Some(s)
    case Generated(s) => Some(s)
    case GeneratedAlways(s) => Some(s)
    case _ => None
  }

  predicate IsColumnType(t: Type) {
    SelectTypeField(t).Some?
  }

  /** The structural test recognises exactly the four wrapper classes. */
  lemma IsColumnTypeExactlyWrappers(t: Type)
    ensures IsColumnType(t) <==> t.ColumnType? || t.JSONColumnType? || t.Generated? || t.GeneratedAlways?
  {
  }

  /** A nullable type is a union, so it never passes the wrapper test. */
  lemma NullableIsNotWrapper(t: Type)
    ensures !IsColumnType(Nullable(t)) && !IsColumnType(Optional(t))
  {
  }

  // ----- properties of the algebra -----

  lemma {:induction false} OperandsAppend(op: Op, a: seq<Type>, b: seq<Type>)
    ensures Operands(op, a + b) == Operands(op, a) + Operands(op, b)
    decreases |a|
  {
    if |a| == 0 {
      assert a + b == b;
    } else {
      assert (a + b)[1..] == a[1..] + b;
      OperandsAppend(op, a[1..], b);
    }
  }

  /** Nesting a compound inside one of the same operator is the same as
      listing its operands: `union(union(a, b), c) == union(a, b, c)`. */
  lemma CompoundAssociative(op: Op, xs: seq<Type>, ys: seq<Type>)
    ensures MakeCompound(op, [MakeCompound(op, xs)] + ys) == MakeCompound(op, xs + ys)
    ensures MakeCompound(op, xs + [MakeCompound(op, ys)]) == MakeCompound(op, xs + ys)
  {
    OperandsAppend(op, [MakeCompound(op, xs)], ys);
    OperandsAppend(op, xs, [MakeCompound(op, ys)]);
    OperandsAppend(op, xs, ys);
    assert Operands(op, [MakeCompound(op, xs)]) == Operands(op, xs) by {
      assert Operands(op, [MakeCompound(op, xs)])
          == Operands(op, xs) + Operands(op, []);
    }
    assert Operands(op, [MakeCompound(op, ys)]) == Operands(op, ys) by {
      assert Operands(op, [MakeCompound(op, ys)])
          == Operands(op, ys) + Operands(op, []);
    }
  }

  /** No member of `ms` is a compound of operator `op`. */
  predicate NoNested(op: Op, ms: seq<Type>) {
    forall i | 0 <= i < |ms| :: !(ms[i].Compound? && ms[i].op == op)
  }

  /** Flattening leaves no redundant nesting: when the same-operator operands
      are themselves flat, so is the result; operands of the other operator
      stay single members. */
  lemma {:induction false} MakeCompoundFlat(op: Op, ts: seq<Type>)
    requires forall i | 0 <= i < |ts| :: ts[i].Compound? && ts[i].op == op ==> NoNested(op, ts[i].members)
    ensures NoNested(op, MakeCompound(op, ts).members)
    ensures forall i | 0 <= i < |ts| :: !(ts[i].Compound? && ts[i].op == op) ==> ts[i] in MakeCompound(op, ts).members
    decreases |ts|
  {
    if |ts| > 0 {
      MakeCompoundFlat(op, ts[1..]);
      var head := if ts[0].Compound? && ts[0].op == op then ts[0].members else [ts[0]];
      var r := head + Operands(op, ts[1..]);
      forall i | 0 <= i < |r| ensures !(r[i].Compound? && r[i].op == op) {
        if i >= |head| {
          assert r[i] == Operands(op, ts[1..])[i - |head|];
        }
      }
      forall i | 0 <= i < |ts| && !(ts[i].Compound? && ts[i].op == op) ensures ts[i] in r {
        if i > 0 {
          assert ts[i] == ts[1..][i - 1];
        }
      }
    }
  }

  lemma {:induction false} ImportListOfAppend(a: seq<Type>, b: seq<Type>)
    ensures ImportListOf(a + b) == ImportListOf(a) + ImportListOf(b)
    decreases |a|
  {
    if |a| == 0 {
      assert a + b == b;
    } else {
      assert (a + b)[1..] == a[1..] + b;
      ImportListOfAppend(a[1..], b);
    }
  }

  /** A compound's imports are its operands' imports in operand order:
      flattening moves members but neither loses nor reorders an import. */
  lemma {:induction false} CompoundImports(op: Op, ts: seq<Type>)
    ensures ImportList(MakeCompound(op, ts)) == ImportListOf(ts)
    decreases |ts|
  {
    if |ts| > 0 {
      var head := if ts[0].Compound? && ts[0].op == op then ts[0].members else [ts[0]];
      CompoundImports(op, ts[1..]);
      ImportListOfAppend(head, Operands(op, ts[1..]));
      assert ImportListOf([ts[0]]) == ImportList(ts[0]);
    }
  }

  lemma TextsAppend(a: seq<Type>, b: seq<Type>)
    ensures Texts(a + b) == Texts(a) + Texts(b)
  {
  }

  /** A same-operator operand with no members would vanish from the text. */
  predicate HasNoEmptyNested(op: Op, ts: seq<Type>) {
    forall i | 0 <= i < |ts| :: ts[i].Compound? && ts[i].op == op ==> |ts[i].members| > 0
  }

  lemma {:induction false} OperandsLength(op: Op, ts: seq<Type>)
    requires HasNoEmptyNested(op, ts)
    ensures |Operands(op, ts)| >= |ts|
    decreases |ts|
  {
    if |ts| > 0 {
      assert HasNoEmptyNested(op, ts[1..]) by {
        forall i | 0 <= i < |ts[1..]| ensures ts[1..][i] == ts[i + 1] { }
      }
      OperandsLength(op, ts[1..]);
    }
  }

  /** A compound renders as its operands' texts joined by ` | ` or ` & `,
      whatever nesting the operands had. */
  lemma {:induction false} CompoundText(op: Op, ts: seq<Type>)
    requires HasNoEmptyNested(op, ts)
    ensures Text(MakeCompound(op, ts)) == Join(Texts(ts), Separator(op))
    decreases |ts|
  {
    if |ts| > 0 {
      var tail := ts[1..];
      if |tail| > 0 {
        assert HasNoEmptyNested(op, tail) by {
          forall i | 0 <= i < |tail| ensures tail[i] == ts[i + 1] { }
        }
        CompoundText(op, tail);
        OperandsLength(op, tail);
      }
      assert ts == [ts[0]] + tail;
      CompoundTextStep(op, ts[0], tail);
      CompoundTextIsJoin(op, ts);
    }
  }

  lemma CompoundTextIsJoin(op: Op, ts: seq<Type>)
    ensures Text(MakeCompound(op, ts)) == Join(Texts(Operands(op, ts)), Separator(op))
  {
  }

  /** One operand in front: its own members (or itself) join to its text. */
  lemma CompoundTextStep(op: Op, t0: Type, tail: seq<Type>)
    requires t0.Compound? && t0.op == op ==> |t0.members| > 0
    requires |tail| > 0 ==> |Operands(op, tail)| > 0
    requires |tail| > 0 ==>
      Join(Texts(Operands(op, tail)), Separator(op)) == Join(Texts(tail), Separator(op))
    ensures Join(Texts(Operands(op, [t0] + tail)), Separator(op)) ==
      Join(Texts([t0] + tail), Separator(op))
  {
    var sep := Separator(op);
    var head := if t0.Compound? && t0.op == op then t0.members else [t0];
    var rest := Operands(op, tail);
    assert ([t0] + tail)[1..] == tail;
    assert Operands(op, [t0] + tail) == head + rest;
    assert Join(Texts(head), sep) == Text(t0);
    assert Texts([t0] + tail) == [Text(t0)] + Texts(tail);
    if |tail| == 0 {
      assert head + rest == head;
    } else {
      TextsAppend(head, rest);
      JoinAppend(Texts(head), Texts(rest), sep);
      JoinAppend([Text(t0)], Texts(tail), sep);
    }
  }

  /** A compound of two operands (neither the empty compound of the same
      operator) renders as both texts around the operator. */
  lemma PairText(op: Op, x: Type, y: Type)
    requires x != Compound(op, []) && y != Compound(op, [])
    ensures Text(MakeCompound(op, [x, y])) == Text(x) + Separator(op) + Text(y)
  {
    PairNotEmptyNested(op, x, y);
    CompoundText(op, [x, y]);
    JoinPair(Text(x), Text(y), Separator(op));
  }

  lemma PairNotEmptyNested(op: Op, x: Type, y: Type)
    requires x != Compound(op, []) && y != Compound(op, [])
    ensures HasNoEmptyNested(op, [x, y])
  {
    assert x.Compound? && x.op == op ==> x.members != [];
    assert y.Compound? && y.op == op ==> y.members != [];
  }

  /** A union of two operands renders as both texts around ` | `. */
  lemma PairUnionText(x: Type, y: Type)
    requires x != Compound(UnionOp, []) && y != Compound(UnionOp, [])
    ensures Text(Union([x, y])) == Text(x) + " | " + Text(y)
  {
    PairText(UnionOp, x, y);
  }

  /** `nullable(t)` renders `t | null` and adds no import (unless `t` is the
      empty union, whose text is empty). */
  lemma NullableRendering(t: Type)
    requires t != Compound(UnionOp, [])
    ensures Text(Nullable(t)) == Text(t) + " | null"
    ensures ImportList(Nullable(t)) == ImportList(t)
  {
    PairUnionText(t, Null);
    assert Text(t) + " | " + "null" == Text(t) + " | null";
    NullableImports(t);
  }

  /** `optional(t)` renders `t | undefined`. */
  lemma OptionalRendering(t: Type)
    requires t != Compound(UnionOp, [])
    ensures Text(Optional(t)) == Text(t) + " | undefined"
  {
    PairUnionText(t, Undefined);
    assert Text(t) + " | " + "undefined" == Text(t) + " | undefined";
  }

  lemma NullableImports(t: Type)
    ensures ImportList(Nullable(t)) == ImportList(t)
  {
    CompoundImports(UnionOp, [t, Null]);
    assert ImportListOf([t, Null]) == ImportList(t) + ImportListOf([Null]);
    assert ImportListOf([Null]) == ImportList(Null) + ImportListOf([]);
  }

  /** The short form `T[]` is used exactly when the element text is
      non-empty and alphanumeric; the imports are the element's. */
  lemma ArrayRendering(e: Type)
    ensures Text(ArrayOf(e)) == Text(e) + "[]" <==> IsAlphanumeric(Text(e))
    ensures !IsAlphanumeric(Text(e)) ==> Text(ArrayOf(e)) == "Array<" + Text(e) + ">"
    ensures ImportList(ArrayOf(e)) == ImportList(e)
  {
    var et := Text(e);
    if !IsAlphanumeric(et) {
      var a := "Array<" + et + ">";
      var b := et + "[]";
      assert a[|a| - 1] == '>' && b[|b| - 1] == ']';
    }
  }

  /** A string literal is the value between double quotes, unescaped; a
      numeric literal is its decimal digits, after a `-` when negative;
      neither carries imports. */
  lemma LiteralRendering(v: string, n: int)
    ensures var s := Text(StringLiteral(v)); |s| == |v| + 2 && s[0] == '"' && s[|s| - 1] == '"' && s[1..|s| - 1] == v
    ensures n >= 0 ==> var d := Text(NumericLiteral(n)); (forall i | 0 <= i < |d| :: IsDigit(d[i])) && ParseDigits(d) == n
    ensures n < 0 ==> var d := Text(NumericLiteral(n));
      && |d| > 1 && d[0] == '-'
      && (forall i | 1 <= i < |d| :: IsDigit(d[i]))
      && ParseDigits(d[1..]) == -n
    ensures ImportList(StringLiteral(v)) == [] && ImportList(NumericLiteral(n)) == []
  {
    if n >= 0 {
      NatToStringRoundTrip(n);
    } else {
      NatToStringRoundTrip(-n);
      var d := Text(NumericLiteral(n));
      assert d[1..] == NatToString(-n);
    }
  }

  lemma {:induction false} ConcatImportLists(lists: seq<seq<TypeImport>>, ts: seq<Type>)
    requires |lists| == |ts|
    requires forall i | 0 <= i < |ts| :: lists[i] == ImportList(ts[i])
    ensures Concat(lists) == ImportListOf(ts)
  {
    if |ts| > 0 {
      ConcatImportLists(lists[1..], ts[1..]);
    }
  }

  /** `ColumnType` and `JSONColumnType` render as `Name<p1, ..., pk>` over
      their normalised parameters and import those parameters' imports,
      then one `kysely` binding of their own name. */
  lemma ParameterisedWrapperRendering(t: Type)
    requires t.ColumnType? || t.JSONColumnType?
    ensures Text(t) == WrapperName(t) + "<" + Join(Texts(TypeParameters(t)), ", ") + ">"
    ensures ImportList(t) == ImportListOf(TypeParameters(t)) + [KyselyImport(WrapperName(t))]
  {
    WrapperParamTexts(t);
    WrapperParamImports(t);
  }

  lemma WrapperParamTexts(t: Type)
    requires t.ColumnType? || t.JSONColumnType?
    ensures Texts(TypeParameters(t)) ==
      NormalizeTypeParams([Some(Text(t.selectType)), OptText(t.insertType), OptText(t.updateType)],
        if t.ColumnType? then Text(t.selectType) else "string")
  {
    var params := [Some(t.selectType), t.insertType, t.updateType];
    var d := if t.ColumnType? then t.selectType else String;
    var e := if t.ColumnType? then Text(t.selectType) else "string";
    var g := (x: Type) => Text(x);
    NormalizeTypeParamsMap(params, [Some(Text(t.selectType)), OptText(t.insertType), OptText(t.updateType)], g, d, e);
  }

  lemma WrapperParamImports(t: Type)
    requires t.ColumnType? || t.JSONColumnType?
    ensures ImportListOf(TypeParameters(t)) ==
      Concat(NormalizeTypeParams([Some(ImportList(t.selectType)), OptImportList(t.insertType), OptImportList(t.updateType)],
        if t.ColumnType? then ImportList(t.selectType) else []))
  {
    var params := [Some(t.selectType), t.insertType, t.updateType];
    var d := if t.ColumnType? then t.selectType else String;
    var f := (x: Type) => ImportList(x);
    var dd: seq<TypeImport> := if t.ColumnType? then ImportList(t.selectType) else [];
    var mapped := [Some(ImportList(t.selectType)), OptImportList(t.insertType), OptImportList(t.updateType)];
    NormalizeTypeParamsMap(params, mapped, f, d, dd);
    ConcatImportLists(NormalizeTypeParams(mapped, dd), TypeParameters(t));
  }

  /** `Generated` and `GeneratedAlways` wrap the select type's text and
      add their own `kysely` binding after the select type's imports. */
  lemma GeneratedRendering(s: Type)
    ensures Text(Generated(s)) == "Generated<" + Text(s) + ">"
    ensures Text(GeneratedAlways(s)) == "GeneratedAlways<" + Text(s) + ">"
    ensures ImportList(Generated(s))[..|ImportList(s)|] == ImportList(s)
    ensures ImportList(Generated(s))[|ImportList(s)|..] == [KyselyImport("Generated")]
    ensures ImportList(GeneratedAlways(s))[|ImportList(s)|..] == [KyselyImport("GeneratedAlways")]
  {
    GeneratedParts(s);
    GeneratedAlwaysParts(s);
  }

  lemma GeneratedParts(s: Type)
    ensures Text(Generated(s)) == "Generated<" + Text(s) + ">"
    ensures ImportList(Generated(s)) == ImportList(s) + [KyselyImport("Generated")]
  {
  }

  lemma GeneratedAlwaysParts(s: Type)
    ensures Text(GeneratedAlways(s)) == "GeneratedAlways<" + Text(s) + ">"
    ensures ImportList(GeneratedAlways(s)) == ImportList(s) + [KyselyImport("GeneratedAlways")]
  {
  }

  /** The literal expectations of src/type.test.ts. */
  lemma StringLiteralExample()
    ensures Text(StringLiteral("foo")) == "\"foo\""
  {
  }

  lemma NumericLiteralExample()
    ensures Text(NumericLiteral(123)) == "123"
  {
    assert NatToString(123) == "123" by {
      assert NatToString(12) == "12" by {
        assert NatToString(1) == "1";
      }
    }
  }

  /** The array expectations of src/type.test.ts. */
  lemma ShortArrayExample()
    ensures Text(ArrayOf(Number)) == "number[]"
  {
    assert IsAlphanumeric("number");
  }

  lemma LongArrayExample()
    ensures Text(ArrayOf(Plain("{ n: number }", []))) == "Array<{ n: number }>"
  {
    assert !IsAlphanumericChar("{ n: number }"[0]);
  }

  /** An imported type renders as its name and imports exactly that name
      from its module. */
  lemma ImportedRendering(name: string, from: string)
    ensures Text(Imported(name, from)) == name
    ensures ImportList(Imported(name, from)) == [TypeImport(from, None, Some([Named(name)]))]
  {
  }

  lemma ImportedExample()
    ensures Text(Imported("Buffer", "node:buffer")) == "Buffer"
    ensures ImportList(Imported("Buffer", "node:buffer")) == [TypeImport("node:buffer", None, Some([Named("Buffer")]))]
  {
  }

  /** The union expectation of src/type.test.ts. */
  lemma UnionExample()
    ensures Text(Union([StringLiteral("a"), StringLiteral("b")])) == "\"a\" | \"b\""
  {
    PairUnionText(StringLiteral("a"), StringLiteral("b"));
    assert Quote("a") == "\"a\"" && Quote("b") == "\"b\"";
  }

  /** The intersection expectation of src/type.test.ts. */
  lemma IntersectionExample()
    ensures Text(Intersection([Plain("{x: number}", []), Plain("{y: number}", [])])) == "{x: number} & {y: number}"
  {
    PairText(IntersectionOp, Plain("{x: number}", []), Plain("{y: number}", []));
  }

  /** The `nullable`/`optional` expectations of src/type.test.ts. */
  lemma NullableExample()
    ensures Text(Nullable(Number)) == "number | null"
  {
    NullableRendering(Number);
  }

  lemma OptionalExample()
    ensures Text(Optional(Number)) == "number | undefined"
  {
    OptionalRendering(Number);
  }

  /** A nested union flattens into one member list. */
  lemma NestedUnionExample()
    ensures Text(Union([Union([Number, String]), Null])) == "number | string | null"
  {
    var ns := Union([Number, String]);
    assert Text(ns) == "number | string" by {
      PairUnionText(Number, String);
    }
    NullableRendering(ns);
  }

  /** `ColumnType(S, I)` renders both parameters. */
  lemma ColumnTypeTwoParams(s: Type, i: Type)
    ensures Text(ColumnType(s, Some(i), None)) == "ColumnType<" + Text(s) + ", " + Text(i) + ">"
  {
    TwoPresentParams(Text(s), Text(i), Text(s));
    JoinPair(Text(s), Text(i), ", ");
  }

  /** `[a, b, absent]` normalises to `[a, b]`, whatever the default. */
  lemma TwoPresentParams<T>(a: T, b: T, d: T)
    ensures NormalizeTypeParams([Some(a), Some(b), None], d) == [a, b]
  {
    var params := [Some(a), Some(b), None];
    assert FirstAbsent(params) == 2 by {
      assert params[1..] == [Some(b), None];
      assert params[1..][1..] == [None];
      assert FirstAbsent(params[1..][1..]) == 0;
    }
  }

  /** `JSONColumnType(S)` renders its select type alone. */
  lemma JsonColumnTypeOneParam(s: Type)
    ensures Text(JSONColumnType(s, None, None)) == "JSONColumnType<" + Text(s) + ">"
  {
    var params := [Some(Text(s)), None, None];
    assert FirstAbsent(params) == 1 by {
      assert params[1..] == [None, None];
    }
    assert NormalizeTypeParams(params, "string") == [Text(s)];
  }

  /** The wrapper expectations of src/type.test.ts. */
  lemma ColumnTypeExample()
    ensures Text(ColumnType(Unknown, Some(String), None)) == "ColumnType<unknown, string>"
  {
    ColumnTypeTwoParams(Unknown, String);
  }

  lemma JsonColumnTypeExample()
    ensures Text(JSONColumnType(Unknown, None, None)) == "JSONColumnType<unknown>"
  {
    JsonColumnTypeOneParam(Unknown);
  }

  lemma GeneratedExamples()
    ensures Text(Generated(BigInt)) == "Generated<bigint>"
    ensures Text(GeneratedAlways(BigInt)) == "GeneratedAlways<bigint>"
  {
  }

  // ----- the wrappers, as the doc comment of `normalizeTypeParams` describes them -----

  /** The parameters the doc comment promises: every present parameter in
      its own position, the gaps before it filled with the default. */
  function IntendedTypeParameters(t: Type): (r: seq<Type>)
    requires t.ColumnType? || t.JSONColumnType?
    ensures 1 <= |r| <= 3 && r[0] == t.selectType
    ensures t.insertType.Some? ==> |r| >= 2 && r[1] == t.insertType.value
    ensures t.updateType.Some? ==> |r| == 3 && r[2] == t.updateType.value
    ensures t.updateType.None? ==> |r| <= 2
    ensures t.insertType.None? && t.updateType.None? ==> |r| == 1
    ensures |r| > 1 && t.insertType.None? ==> r[1] == (if t.ColumnType? then t.selectType else String)
  {
    var d := if t.ColumnType? then t.selectType else String;
    var params := [Some(t.selectType), t.insertType, t.updateType];
    assert params[0] == Some(t.selectType) && params[1] == t.insertType && params[2] == t.updateType;
    NormalizeWithDefaultsKeepsPositions(params, d);
    NormalizeWithDefaults(params, d)
  }

  /** The text of a `ColumnType` or `JSONColumnType` over the intended parameters. */
  function IntendedText(t: Type): string
    requires t.ColumnType? || t.JSONColumnType?
  {
    WrapperName(t) + "<" + Join(Texts(IntendedTypeParameters(t)), ", ") + ">"
  }

  /** The imports of a `ColumnType` or `JSONColumnType` over the intended parameters. */
  function IntendedImportList(t: Type): seq<TypeImport>
    requires t.ColumnType? || t.JSONColumnType?
  {
    ImportListOf(IntendedTypeParameters(t)) + [KyselyImport(WrapperName(t))]
  }

  /** Without a gap before a present parameter, which is every wrapper the
      collectors build themselves, the code as written already renders and
      imports what the doc comment intends. */
  lemma IntendedAgreesWithoutGap(t: Type)
    requires t.ColumnType? || t.JSONColumnType?
    requires t.insertType.None? ==> t.updateType.None?
    ensures IntendedTypeParameters(t) == TypeParameters(t)
    ensures IntendedText(t) == Text(t)
    ensures IntendedImportList(t) == ImportList(t)
  {
    var d := if t.ColumnType? then t.selectType else String;
    var params := [Some(t.selectType), t.insertType, t.updateType];
    NormalizeAgreesWithoutGap(params, d);
    ParameterisedWrapperRendering(t);
  }

  /** A gap before a present parameter is filled with the default:
      `ColumnType(S, undefined, U)` is intended to render `ColumnType<S, S, U>`
      and to import what `U` needs. */
  lemma ColumnTypeGapFilled(s: Type, u: Type)
    ensures IntendedText(ColumnType(s, None, Some(u))) == "ColumnType<" + Text(s) + ", " + Text(s) + ", " + Text(u) + ">"
    ensures IntendedImportList(ColumnType(s, None, Some(u))) == ImportList(s) + ImportList(s) + ImportList(u) + [KyselyImport("ColumnType")]
  {
    GapFilledIntendedText(s, u);
    GapFilledIntendedImports(s, u);
  }

  lemma GapFilledIntended(s: Type, u: Type)
    ensures IntendedTypeParameters(ColumnType(s, None, Some(u))) == [s, s, u]
  {
    GapFilledParams(s, u);
  }

  lemma GapFilledIntendedText(s: Type, u: Type)
    ensures IntendedText(ColumnType(s, None, Some(u))) == "ColumnType<" + Text(s) + ", " + Text(s) + ", " + Text(u) + ">"
  {
    GapFilledIntended(s, u);
    TextsOfTriple(s, s, u);
    ColumnTypeOfTriple(Text(s), Text(s), Text(u));
  }

  lemma TextsOfTriple(a: Type, b: Type, c: Type)
    ensures Texts([a, b, c]) == [Text(a), Text(b), Text(c)]
  {
  }

  /** `ColumnType<a, b, c>`, the rendering over three parameter texts. */
  lemma ColumnTypeOfTriple(a: string, b: string, c: string)
    ensures "ColumnType" + "<" + Join([a, b, c], ", ") + ">" == "ColumnType<" + a + ", " + b + ", " + c + ">"
  {
    JoinTriple(a, b, c, ", ");
  }

  lemma GapFilledIntendedImports(s: Type, u: Type)
    ensures IntendedImportList(ColumnType(s, None, Some(u))) == ImportList(s) + ImportList(s) + ImportList(u) + [KyselyImport("ColumnType")]
  {
    GapFilledIntended(s, u);
    ImportListOfTriple(s, s, u);
  }

  lemma ImportListOfTriple(a: Type, b: Type, c: Type)
    ensures ImportListOf([a, b, c]) == ImportList(a) + ImportList(b) + ImportList(c)
  {
    assert [a, b, c][1..] == [b, c];
    assert [b, c][1..] == [c];
    assert ImportListOf([c]) == ImportList(c) + ImportListOf([]);
  }

  /** `[a, absent, b]` with default `a` normalises to `[a, a, b]`. */
  lemma GapFilledParams<T>(a: T, b: T)
    ensures NormalizeWithDefaults([Some(a), None, Some(b)], a) == [a, a, b]
  {
    var params := [Some(a), None, Some(b)];
    assert LastPresentEnd(params) == 3 by {
      assert params[1..][1..] == [Some(b)];
      assert LastPresentEnd(params[1..][1..]) == 1;
    }
  }

  /** The same wrapper under the code as written: the gap ends the list, so
      the update type is dropped from the text and from the imports. */
  lemma ColumnTypeGapAsWritten(s: Type, u: Type)
    ensures Text(ColumnType(s, None, Some(u))) == "ColumnType<" + Text(s) + ">"
    ensures ImportList(ColumnType(s, None, Some(u))) == ImportList(s) + [KyselyImport("ColumnType")]
  {
    NormalizeDropsAfterGap(Text(s), Text(u), Text(s));
    NormalizeDropsAfterGap(ImportList(s), ImportList(u), ImportList(s));
    assert Concat([ImportList(s)]) == ImportList(s);
  }
}
