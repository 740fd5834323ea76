/** The import bookkeeping of `src/imports.ts`: an append-only collection
    keyed by module specifier, each entry holding an optional default import
    and an insertion-ordered set of named bindings, plus the snapshot
    `values()` used to print import declarations. */
module Imports {
  import opened Wrappers

  /** A named binding: a bare name, or `name as alias`. Alias bindings are
      JavaScript objects, which a `Set` tells apart by identity only; `ref`
      stands for that identity, so two alias bindings are the same binding
      exactly when they are the same object. */
  datatype ImportSpecifier =
    | Named(name: string)
    | Aliased(name: string, alias: string, ref: nat)

  /** `TypeImport`: `defaultImport` and `namedBindings` may be absent. */
  datatype TypeImport = TypeImport(
    moduleSpecifier: string,
    defaultImport: Option<string>,
    namedBindings: Option<seq<ImportSpecifier>>)

  /** JavaScript truthiness of an optional string: present and non-empty. */
  predicate Truthy(o: Option<string>) {
    o.Some? && o.value != ""
  }

  /** One module's entry. `namedBindings` is absent until `addNamed` first
      touches the module; its order is the `Set`'s insertion order. */
  datatype Entry = Entry(defaultImport: Option<string>, namedBindings: Option<seq<ImportSpecifier>>)

  const NoEntry := Entry(None, None)

  datatype ImportError = ConflictingDefaults(moduleSpecifier: string, existing: string, requested: string)

  /** The private `Map` of the class: `order` is the map's key insertion order. */
  datatype ImportCollection = ImportCollection(order: seq<string>, entries: map<string, Entry>)

  const Empty := ImportCollection([], map[])

  predicate Distinct<T(==)>(s: seq<T>) {
    forall i, j | 0 <= i < j < |s| :: s[i] != s[j]
  }

  /** What every reachable collection satisfies: the key order lists each key
      once, and each binding list holds each binding once. */
  ghost predicate Valid(c: ImportCollection) {
    && Distinct(c.order)
    && (forall m :: m in c.entries <==> m in c.order)
    && (forall m | m in c.entries :: Distinct(c.entries[m].namedBindings.GetOr([])))
  }

  lemma EmptyValid()
    ensures Valid(Empty)
  {
  }

  function Lookup(c: ImportCollection, m: string): Entry {
    if m in c.entries then c.entries[m] else NoEntry
  }

  function Bindings(c: ImportCollection, m: string): seq<ImportSpecifier> {
    Lookup(c, m).namedBindings.GetOr([])
  }

  /** `Set.prototype.add`: a no-op for a member, an append otherwise. */
  function SetAdd<T(==,!new)>(s: seq<T>, x: T): (r: seq<T>)
    ensures x in r
    ensures forall y :: y in r <==> y in s || y == x
    ensures |s| <= |r| && r[..|s|] == s
    ensures Distinct(s) ==> Distinct(r)
  {
    if x in s then s else s + [x]
  }

  /** The elements of `xs` a set holding `s` does not have yet, each at its
      first occurrence in `xs`, in the order of `xs`. */
  function Fresh<T(==)>(s: seq<T>, xs: seq<T>): seq<T>
    decreases |xs|
  {
    if |xs| == 0 then []
    else
      var init := xs[..|xs| - 1];
      var x := xs[|xs| - 1];
      Fresh(s, init) + (if x in s || x in init then [] else [x])
  }

  /** The fresh elements are those of `xs` outside `s`, each once. */
  lemma {:induction false} FreshMembers<T>(s: seq<T>, xs: seq<T>)
    ensures forall y :: y in Fresh(s, xs) <==> y in xs && y !in s
    ensures Distinct(Fresh(s, xs))
    decreases |xs|
  {
    if |xs| > 0 {
      var init := xs[..|xs| - 1];
      var x := xs[|xs| - 1];
      assert xs == init + [x];
      FreshMembers(s, init);
    }
  }

  /** Taking the first element off `xs` first: it is fresh exactly when `s`
      lacks it, and the rest is fresh against `s` with it added. */
  lemma {:induction false} FreshCons<T(!new)>(s: seq<T>, x: T, rest: seq<T>)
    ensures Fresh(s, [x] + rest) == (if x in s then [] else [x]) + Fresh(SetAdd(s, x), rest)
    decreases |rest|
  {
    var xs := [x] + rest;
    var hx: seq<T> := if x in s then [] else [x];
    var s' := SetAdd(s, x);
    if |rest| == 0 {
      assert xs[..|xs| - 1] == [];
      assert Fresh(s, xs) == Fresh(s, []) + hx;
      assert Fresh(s', rest) == [];
    } else {
      var init := rest[..|rest| - 1];
      var y := rest[|rest| - 1];
      var ty: seq<T> := if y in s || y == x || y in init then [] else [y];
      assert xs[..|xs| - 1] == [x] + init;
      assert xs[|xs| - 1] == y;
      assert y in [x] + init <==> y == x || y in init;
      assert Fresh(s, xs) == Fresh(s, [x] + init) + ty;
      assert y in s' <==> y in s || y == x;
      assert Fresh(s', rest) == Fresh(s', init) + ty;
      FreshCons(s, x, init);
      assert Fresh(s, [x] + init) == hx + Fresh(s', init);
    }
  }

  /** Adding the names one by one, in order. */
  function SetAddAll<T(==,!new)>(s: seq<T>, xs: seq<T>): (r: seq<T>)
    ensures forall y :: y in r <==> y in s || y in xs
    ensures |s| <= |r| && r[..|s|] == s
    ensures Distinct(s) ==> Distinct(r)
    decreases |xs|
  {
    if |xs| == 0 then s else SetAddAll(SetAdd(s, xs[0]), xs[1..])
  }

  /** The set grows by exactly the fresh names, appended in the order they
      are given. */
  lemma {:induction false} SetAddAllAppendsFresh<T(!new)>(s: seq<T>, xs: seq<T>)
    ensures SetAddAll(s, xs) == s + Fresh(s, xs)
    decreases |xs|
  {
    if |xs| > 0 {
      var x, rest := xs[0], xs[1..];
      SetAddAllHead(s, xs);
      SetAddAllAppendsFresh(SetAdd(s, x), rest);
      FreshHead(s, xs);
      AppendRegroup(SetAddAll(s, xs), s, if x in s then [] else [x], SetAdd(s, x), Fresh(SetAdd(s, x), rest), Fresh(s, xs));
    }
  }

  lemma SetAddAllHead<T(!new)>(s: seq<T>, xs: seq<T>)
    requires |xs| > 0
    ensures SetAddAll(s, xs) == SetAddAll(SetAdd(s, xs[0]), xs[1..])
  {
  }

  lemma FreshHead<T(!new)>(s: seq<T>, xs: seq<T>)
    requires |xs| > 0
    ensures SetAdd(s, xs[0]) == s + (if xs[0] in s then [] else [xs[0]])
    ensures Fresh(s, xs) == (if xs[0] in s then [] else [xs[0]]) + Fresh(SetAdd(s, xs[0]), xs[1..])
  {
    assert xs == [xs[0]] + xs[1..];
    FreshCons(s, xs[0], xs[1..]);
  }

  lemma AppendRegroup<T>(all: seq<T>, s: seq<T>, h: seq<T>, s': seq<T>, f: seq<T>, gained: seq<T>)
    requires s' == s + h && all == s' + f && gained == h + f
    ensures all == s + gained
  {
  }

  /** The lookup-or-create step both `addNamed` and `addDefault` begin with. */
  function Touch(c: ImportCollection, m: string): (r: ImportCollection)
    ensures m in r.entries && r.entries[m] == Lookup(c, m)
    ensures r.order == if m in c.entries then c.order else c.order + [m]
    ensures forall k | k != m :: (k in r.entries <==> k in c.entries)
    ensures forall k | k != m && k in c.entries :: r.entries[k] == c.entries[k]
  {
    if m in c.entries then c else ImportCollection(c.order + [m], c.entries[m := NoEntry])
  }

  /** `addNamed(m, ...names)`. */
  function AddNamed(c: ImportCollection, m: string, names: seq<ImportSpecifier>): (r: ImportCollection)
    ensures m in r.entries && r.entries[m].namedBindings.Some?
    ensures forall x :: x in Bindings(r, m) <==> x in Bindings(c, m) || x in names
    ensures |Bindings(c, m)| <= |Bindings(r, m)| && Bindings(r, m)[..|Bindings(c, m)|] == Bindings(c, m)
    ensures r.entries[m].defaultImport == Lookup(c, m).defaultImport
    ensures r.order == if m in c.entries then c.order else c.order + [m]
    ensures forall k | k != m :: (k in r.entries <==> k in c.entries)
    ensures forall k | k != m && k in c.entries :: r.entries[k] == c.entries[k]
    ensures Valid(c) ==> Valid(r)
  {
    var t := Touch(c, m);
    var e := t.entries[m];
    var b := SetAddAll(e.namedBindings.GetOr([]), names);
    var r := ImportCollection(t.order, t.entries[m := e.(namedBindings := Some(b))]);
    assert Valid(c) ==> Valid(r) by {
      if Valid(c) {
        NewBindingsValid(c, m, b);
      }
    }
    r
  }

  /** The module's bindings grow by exactly the names it lacked, appended
      in the order given, each once. */
  lemma AddNamedAppendsFresh(c: ImportCollection, m: string, names: seq<ImportSpecifier>)
    ensures Bindings(AddNamed(c, m, names), m) == Bindings(c, m) + Fresh(Bindings(c, m), names)
  {
    assert Touch(c, m).entries[m].namedBindings.GetOr([]) == Bindings(c, m);
    SetAddAllAppendsFresh(Bindings(c, m), names);
  }

  /** Giving a module a duplicate-free binding list keeps a collection
      valid. */
  lemma NewBindingsValid(c: ImportCollection, m: string, b: seq<ImportSpecifier>)
    requires Valid(c) && Distinct(b)
    ensures var t := Touch(c, m);
      Valid(ImportCollection(t.order, t.entries[m := t.entries[m].(namedBindings := Some(b))]))
  {
    var t := Touch(c, m);
    var r := ImportCollection(t.order, t.entries[m := t.entries[m].(namedBindings := Some(b))]);
    assert forall k | k in r.entries && k != m :: k in c.entries;
  }

  /** `addDefault(m, name)`: fails when a different, truthy default is
      already registered for `m`; otherwise (re)sets the default. */
  function AddDefault(c: ImportCollection, m: string, name: string): (r: Result<ImportCollection, ImportError>)
    ensures r.Err? <==> Truthy(Lookup(c, m).defaultImport) && Lookup(c, m).defaultImport.value != name
    ensures r.Ok? ==> m in r.value.entries && r.value.entries[m].defaultImport == Some(name)
    ensures r.Ok? ==> Bindings(r.value, m) == Bindings(c, m)
    ensures r.Ok? ==> r.value.entries[m].namedBindings == Lookup(c, m).namedBindings
    ensures r.Ok? ==> r.value.order == if m in c.entries then c.order else c.order + [m]
    ensures r.Ok? ==> forall k | k != m :: (k in r.value.entries <==> k in c.entries)
    ensures r.Ok? ==> forall k | k != m && k in c.entries :: r.value.entries[k] == c.entries[k]
    ensures r.Ok? && Valid(c) ==> Valid(r.value)
  {
    var t := Touch(c, m);
    var e := t.entries[m];
    if Truthy(e.defaultImport) && e.defaultImport.value != name then
      Err(ConflictingDefaults(m, e.defaultImport.value, name))
    else
      Ok(ImportCollection(t.order, t.entries[m := e.(defaultImport := Some(name))]))
  }

  /** Registering the same default twice is the same as registering it once. */
  lemma AddDefaultIdempotent(c: ImportCollection, m: string, name: string)
    requires AddDefault(c, m, name).Ok?
    ensures AddDefault(AddDefault(c, m, name).value, m, name) == AddDefault(c, m, name)
  {
    var r := AddDefault(c, m, name).value;
    var e := r.entries[m];
    assert e.(defaultImport := Some(name)) == e;
    assert r.entries[m := e] == r.entries;
  }

  /** Registering a second, different default always fails, whatever came before. */
  lemma AddDefaultConflict(c: ImportCollection, m: string, a: string, b: string)
    requires a != "" && a != b
    requires AddDefault(c, m, a).Ok?
    ensures AddDefault(AddDefault(c, m, a).value, m, b).Err?
  {
  }

  /** Adding the same bindings again changes nothing. */
  lemma AddNamedIdempotent(c: ImportCollection, m: string, names: seq<ImportSpecifier>)
    ensures AddNamed(AddNamed(c, m, names), m, names) == AddNamed(c, m, names)
  {
    var r := AddNamed(c, m, names);
    var b := Bindings(r, m);
    SetAddAllNoop(b, names);
    assert r.entries[m := r.entries[m].(namedBindings := Some(SetAddAll(b, names)))] == r.entries;
  }

  lemma {:induction false} SetAddAllNoop<T(!new)>(s: seq<T>, xs: seq<T>)
    requires forall x | x in xs :: x in s
    ensures SetAddAll(s, xs) == s
    decreases |xs|
  {
    if |xs| > 0 {
      SetAddAllNoop(s, xs[1..]);
    }
  }

  /** `#addImport`: a truthy default goes to `addDefault`, then present
      bindings (even an empty list) go to `addNamed`. */
  function AddImport(c: ImportCollection, imp: TypeImport): (r: Result<ImportCollection, ImportError>)
    ensures r.Err? <==> Truthy(imp.defaultImport) && !AgreesWith(Lookup(c, imp.moduleSpecifier).defaultImport, imp.defaultImport)
    ensures r.Ok? ==> forall x :: x in Bindings(r.value, imp.moduleSpecifier) <==>
      x in Bindings(c, imp.moduleSpecifier) || x in imp.namedBindings.GetOr([])
    ensures r.Ok? ==> (Lookup(r.value, imp.moduleSpecifier).defaultImport ==
      if Truthy(imp.defaultImport) then imp.defaultImport else Lookup(c, imp.moduleSpecifier).defaultImport)
    ensures r.Ok? ==> forall k | k != imp.moduleSpecifier :: Lookup(r.value, k) == Lookup(c, k)
    ensures r.Ok? && Valid(c) ==> Valid(r.value)
  {
    var m := imp.moduleSpecifier;
    var c1 :- if Truthy(imp.defaultImport) then AddDefault(c, m, imp.defaultImport.value) else Ok(c);
    if imp.namedBindings.Some? then Ok(AddNamed(c1, m, imp.namedBindings.value)) else Ok(c1)
  }

  /** `add(...typeImports)`: each import in turn; the first failure aborts. */
  function Add(c: ImportCollection, imps: seq<TypeImport>): (r: Result<ImportCollection, ImportError>)
    ensures r.Ok? && Valid(c) ==> Valid(r.value)
    decreases |imps|
  {
    if |imps| == 0 then Ok(c)
    else
      var c1 :- AddImport(c, imps[0]);
      Add(c1, imps[1..])
  }

  /** Adding two lists is adding their concatenation. */
  lemma {:induction false} AddAppend(c: ImportCollection, a: seq<TypeImport>, b: seq<TypeImport>)
    ensures Add(c, a + b) == (if Add(c, a).Ok? then Add(Add(c, a).value, b) else Add(c, a))
    decreases |a|
  {
    if |a| == 0 {
      assert a + b == b;
    } else {
      assert (a + b)[0] == a[0];
      assert (a + b)[1..] == a[1..] + b;
      var first := AddImport(c, a[0]);
      if first.Ok? {
        assert Add(c, a) == Add(first.value, a[1..]);
        assert Add(c, a + b) == Add(first.value, a[1..] + b);
        AddAppend(first.value, a[1..], b);
      } else {
        assert Add(c, a) == Err(first.error);
        assert Add(c, a + b) == Err(first.error);
      }
    }
  }

  // ----- what `add` keeps -----

  /** `r` has every binding and every truthy default that `c` has. */
  ghost predicate Keeps(c: ImportCollection, r: ImportCollection) {
    && (forall m, x | x in Bindings(c, m) :: x in Bindings(r, m))
    && (forall m | Truthy(Lookup(c, m).defaultImport) :: Lookup(r, m).defaultImport == Lookup(c, m).defaultImport)
  }

  /** `c` holds what `imp` asks for: each of its bindings under its module,
      and its default when that is truthy. */
  ghost predicate Holds(c: ImportCollection, imp: TypeImport) {
    && (forall x | x in imp.namedBindings.GetOr([]) :: x in Bindings(c, imp.moduleSpecifier))
    && (Truthy(imp.defaultImport) ==> Lookup(c, imp.moduleSpecifier).defaultImport == imp.defaultImport)
  }

  lemma KeepsTransitive(a: ImportCollection, b: ImportCollection, c: ImportCollection)
    requires Keeps(a, b) && Keeps(b, c)
    ensures Keeps(a, c)
  {
  }

  lemma HoldsKept(c: ImportCollection, r: ImportCollection, imp: TypeImport)
    requires Holds(c, imp) && Keeps(c, r)
    ensures Holds(r, imp)
  {
  }

  /** `addNamed` only ever adds. */
  lemma AddNamedKeeps(c: ImportCollection, m: string, names: seq<ImportSpecifier>)
    ensures Keeps(c, AddNamed(c, m, names))
  {
    var r := AddNamed(c, m, names);
    forall k, x | x in Bindings(c, k) ensures x in Bindings(r, k) {
      if k != m {
        assert Lookup(r, k) == Lookup(c, k);
      }
    }
    forall k | Truthy(Lookup(c, k).defaultImport) ensures Lookup(r, k).defaultImport == Lookup(c, k).defaultImport {
      if k != m {
        assert Lookup(r, k) == Lookup(c, k);
      }
    }
  }

  /** One import is merged: the collection keeps everything it had and now
      holds the import's bindings and truthy default. */
  lemma AddImportMerges(c: ImportCollection, imp: TypeImport)
    requires AddImport(c, imp).Ok?
    ensures Keeps(c, AddImport(c, imp).value)
    ensures Holds(AddImport(c, imp).value, imp)
  {
  }

  /** `add(...imps)`, when it succeeds, merges every import: each binding
      of each import is among its module's bindings, each truthy default is
      its module's default, and nothing the collection had is lost. */
  lemma {:induction false} AddMergesEveryImport(c: ImportCollection, imps: seq<TypeImport>)
    requires Add(c, imps).Ok?
    ensures Keeps(c, Add(c, imps).value)
    ensures forall imp | imp in imps :: Holds(Add(c, imps).value, imp)
    decreases |imps|
  {
    if |imps| > 0 {
      var c1 := AddImport(c, imps[0]).value;
      var r := Add(c, imps).value;
      assert Add(c, imps) == Add(c1, imps[1..]);
      AddImportMerges(c, imps[0]);
      AddMergesEveryImport(c1, imps[1..]);
      KeepsTransitive(c, c1, r);
      HoldsKept(c1, r, imps[0]);
      assert forall imp | imp in imps :: imp == imps[0] || imp in imps[1..];
    }
  }

  /** A module holding a binding or a truthy default is visible in
      `values()`, through its snapshot, which carries those bindings and
      that default. */
  lemma HeldImportInValues(c: ImportCollection, imp: TypeImport)
    requires Valid(c) && Holds(c, imp)
    requires Truthy(imp.defaultImport) || imp.namedBindings.GetOr([]) != []
    ensures var v := Snapshot(imp.moduleSpecifier, Lookup(c, imp.moduleSpecifier));
      && v in Values(c)
      && (forall x | x in imp.namedBindings.GetOr([]) :: x in v.namedBindings.GetOr([]))
      && (Truthy(imp.defaultImport) ==> v.defaultImport == imp.defaultImport)
  {
    var m := imp.moduleSpecifier;
    if !Truthy(imp.defaultImport) {
      assert imp.namedBindings.value[0] in Bindings(c, m);
    }
    assert m in c.entries;
  }

  /** Two optional default names do not clash: at most one is truthy, or they are equal. */
  predicate AgreesWith(a: Option<string>, b: Option<string>) {
    !(Truthy(a) && Truthy(b) && a.value != b.value)
  }

  /** No import asks for a default that clashes with the collection's or
      with an earlier import's default for the same module. */
  ghost predicate DefaultsConsistent(c: ImportCollection, imps: seq<TypeImport>) {
    forall i | 0 <= i < |imps| ::
      && AgreesWith(Lookup(c, imps[i].moduleSpecifier).defaultImport, imps[i].defaultImport)
      && forall j | 0 <= j < i && imps[j].moduleSpecifier == imps[i].moduleSpecifier ::
           AgreesWith(imps[j].defaultImport, imps[i].defaultImport)
  }

  /** `add` fails exactly when two truthy defaults for one module differ. */
  lemma {:induction false} AddFailsIffConflict(c: ImportCollection, imps: seq<TypeImport>)
    ensures Add(c, imps).Ok? <==> DefaultsConsistent(c, imps)
    decreases |imps|
  {
    if |imps| > 0 {
      var x := imps[0];
      var rest := imps[1..];
      var first := AddImport(c, x);
      if first.Err? {
        assert !DefaultsConsistent(c, imps) by {
          assert !AgreesWith(Lookup(c, x.moduleSpecifier).defaultImport, imps[0].defaultImport);
        }
      } else {
        var c1 := first.value;
        AddFailsIffConflict(c1, rest);
        ConsistentStep(c, c1, x, rest);
        assert imps == [x] + rest;
      }
    }
  }

  lemma ConsistentStep(c: ImportCollection, c1: ImportCollection, x: TypeImport, rest: seq<TypeImport>)
    requires AddImport(c, x) == Ok(c1)
    ensures DefaultsConsistent(c1, rest) <==> DefaultsConsistent(c, [x] + rest)
  {
    var imps := [x] + rest;
    var m := x.moduleSpecifier;
    assert AgreesWith(Lookup(c, m).defaultImport, x.defaultImport);
    assert forall k :: (Lookup(c1, k).defaultImport ==
      if k == m && Truthy(x.defaultImport) then x.defaultImport else Lookup(c, k).defaultImport);
    if DefaultsConsistent(c1, rest) {
      forall i | 0 <= i < |imps|
        ensures AgreesWith(Lookup(c, imps[i].moduleSpecifier).defaultImport, imps[i].defaultImport)
        ensures forall j | 0 <= j < i && imps[j].moduleSpecifier == imps[i].moduleSpecifier ::
          AgreesWith(imps[j].defaultImport, imps[i].defaultImport)
      {
        if i > 0 {
          assert imps[i] == rest[i - 1];
          forall j | 0 <= j < i && imps[j].moduleSpecifier == imps[i].moduleSpecifier
            ensures AgreesWith(imps[j].defaultImport, imps[i].defaultImport)
          {
            if j > 0 {
              assert imps[j] == rest[j - 1];
            }
          }
        }
      }
    }
    if DefaultsConsistent(c, imps) {
      forall i | 0 <= i < |rest|
        ensures AgreesWith(Lookup(c1, rest[i].moduleSpecifier).defaultImport, rest[i].defaultImport)
        ensures forall j | 0 <= j < i && rest[j].moduleSpecifier == rest[i].moduleSpecifier ::
          AgreesWith(rest[j].defaultImport, rest[i].defaultImport)
      {
        assert imps[i + 1] == rest[i];
        assert imps[0] == x;
        forall j | 0 <= j < i && rest[j].moduleSpecifier == rest[i].moduleSpecifier
          ensures AgreesWith(rest[j].defaultImport, rest[i].defaultImport)
        {
          assert imps[j + 1] == rest[j];
        }
      }
    }
  }

  // ----- values() -----

  /** An entry `values()` keeps: a truthy default or a non-empty binding set. */
  predicate Visible(e: Entry) {
    Truthy(e.defaultImport) || (e.namedBindings.Some? && |e.namedBindings.value| > 0)
  }

  /** The snapshot of one entry: bindings in insertion order, `[]` when absent. */
  function Snapshot(m: string, e: Entry): TypeImport {
    TypeImport(m, e.defaultImport, Some(e.namedBindings.GetOr([])))
  }

  /** The filtered, mapped entries in key insertion order. */
  function Snapshots(c: ImportCollection, keys: seq<string>): (r: seq<TypeImport>)
    ensures forall x | x in r ::
      && x.moduleSpecifier in keys
      && Visible(Lookup(c, x.moduleSpecifier))
      && x == Snapshot(x.moduleSpecifier, Lookup(c, x.moduleSpecifier))
    ensures forall m | m in keys && Visible(Lookup(c, m)) :: Snapshot(m, Lookup(c, m)) in r
    ensures Distinct(keys) ==> forall i, j | 0 <= i < j < |r| :: r[i].moduleSpecifier != r[j].moduleSpecifier
  {
    if |keys| == 0 then []
    else
      var m := keys[0];
      var tail := Snapshots(c, keys[1..]);
      if Visible(Lookup(c, m)) then [Snapshot(m, Lookup(c, m))] + tail else tail
  }

  /** Lexicographic order on character codes: the order `values()` sorts
      module specifiers by. */
  predicate LexLe(a: string, b: string) {
    |a| == 0 || (|b| > 0 && (a[0] < b[0] || (a[0] == b[0] && LexLe(a[1..], b[1..]))))
  }

  lemma {:induction false} LexLeTotal(a: string, b: string)
    ensures LexLe(a, b) || LexLe(b, a)
  {
    if |a| > 0 && |b| > 0 && a[0] == b[0] {
      LexLeTotal(a[1..], b[1..]);
    }
  }

  lemma {:induction false} LexLeTransitive(a: string, b: string, c: string)
    requires LexLe(a, b) && LexLe(b, c)
    ensures LexLe(a, c)
  {
    if |a| > 0 && |b| > 0 && |c| > 0 && a[0] == b[0] && b[0] == c[0] {
      LexLeTransitive(a[1..], b[1..], c[1..]);
    }
  }

  lemma {:induction false} LexLeAntisymmetric(a: string, b: string)
    requires LexLe(a, b) && LexLe(b, a)
    ensures a == b
  {
    if |a| > 0 && |b| > 0 {
      LexLeAntisymmetric(a[1..], b[1..]);
      assert a == [a[0]] + a[1..] && b == [b[0]] + b[1..];
    }
  }

  predicate SortedByModule(s: seq<TypeImport>) {
    forall i, j | 0 <= i < j < |s| :: LexLe(s[i].moduleSpecifier, s[j].moduleSpecifier)
  }

  function InsertByModule(x: TypeImport, s: seq<TypeImport>): (r: seq<TypeImport>)
    requires SortedByModule(s)
    ensures multiset(r) == multiset(s) + multiset{x}
    ensures SortedByModule(r)
  {
    if |s| == 0 then [x]
    else if LexLe(x.moduleSpecifier, s[0].moduleSpecifier) then
      InFrontStaysSorted(x, s);
      [x] + s
    else
      var tail := InsertByModule(x, s[1..]);
      ConsStaysSorted(x, s, tail);
      assert s == [s[0]] + s[1..];
      [s[0]] + tail
  }

  /** An element below the head is below everything. */
  lemma InFrontStaysSorted(x: TypeImport, s: seq<TypeImport>)
    requires |s| > 0 && SortedByModule(s) && LexLe(x.moduleSpecifier, s[0].moduleSpecifier)
    ensures SortedByModule([x] + s)
  {
    forall j | 0 < j < |s| ensures LexLe(x.moduleSpecifier, s[j].moduleSpecifier) {
      LexLeTransitive(x.moduleSpecifier, s[0].moduleSpecifier, s[j].moduleSpecifier);
    }
    var r := [x] + s;
    forall i, j | 0 <= i < j < |r| ensures LexLe(r[i].moduleSpecifier, r[j].moduleSpecifier) {
      if i > 0 {
        assert r[i] == s[i - 1] && r[j] == s[j - 1];
      } else {
        assert r[j] == s[j - 1];
      }
    }
  }

  /** Putting the head back in front of the tail's insertion keeps the
      order: the head is below everything in the tail, `x` included. */
  lemma ConsStaysSorted(x: TypeImport, s: seq<TypeImport>, tail: seq<TypeImport>)
    requires |s| > 0 && SortedByModule(s) && !LexLe(x.moduleSpecifier, s[0].moduleSpecifier)
    requires multiset(tail) == multiset(s[1..]) + multiset{x} && SortedByModule(tail)
    ensures SortedByModule([s[0]] + tail)
  {
    LexLeTotal(x.moduleSpecifier, s[0].moduleSpecifier);
    forall y | y in multiset(tail) ensures LexLe(s[0].moduleSpecifier, y.moduleSpecifier) {
      if y != x {
        assert y in multiset(s[1..]);
        var k :| 0 <= k < |s[1..]| && s[1..][k] == y;
        assert s[k + 1] == y;
      }
    }
    var r := [s[0]] + tail;
    forall i, j | 0 <= i < j < |r| ensures LexLe(r[i].moduleSpecifier, r[j].moduleSpecifier) {
      if i == 0 {
        assert r[j] == tail[j - 1];
        assert r[j] in multiset(tail);
      }
    }
  }

  /** `toSorted` by module specifier. */
  function SortByModule(s: seq<TypeImport>): (r: seq<TypeImport>)
    ensures multiset(r) == multiset(s)
    ensures SortedByModule(r)
  {
    if |s| == 0 then []
    else
      assert s == [s[0]] + s[1..];
      InsertByModule(s[0], SortByModule(s[1..]))
  }

  /** `values()`: one snapshot per entry that has a truthy default or some
      binding, sorted by module specifier. */
  function Values(c: ImportCollection): (r: seq<TypeImport>)
    ensures SortedByModule(r)
    ensures forall i | 0 <= i < |r| ::
      && r[i].moduleSpecifier in c.order
      && Visible(Lookup(c, r[i].moduleSpecifier))
      && r[i] == Snapshot(r[i].moduleSpecifier, Lookup(c, r[i].moduleSpecifier))
    ensures forall m | m in c.order && Visible(Lookup(c, m)) :: Snapshot(m, Lookup(c, m)) in r
  {
    var pending := Snapshots(c, c.order);
    var r := SortByModule(pending);
    assert forall x :: x in r <==> x in pending by {
      forall x ensures x in r <==> x in pending {
        assert x in r <==> x in multiset(r);
        assert x in pending <==> x in multiset(pending);
      }
    }
    assert forall i | 0 <= i < |r| :: r[i] in pending;
    r
  }

  /** In a reachable collection, `values()` holds one import per module,
      strictly ordered by specifier. */
  lemma ValuesOnePerModule(c: ImportCollection)
    requires Valid(c)
    ensures forall i, j | 0 <= i < j < |Values(c)| ::
      Values(c)[i].moduleSpecifier != Values(c)[j].moduleSpecifier
  {
    var r := Values(c);
    var pending := Snapshots(c, c.order);
    assert multiset(r) == multiset(pending);
    assert Distinct(pending);
    DistinctMultiset(pending);
    DistinctMultiset(r);
    forall i, j | 0 <= i < j < |r| ensures r[i].moduleSpecifier != r[j].moduleSpecifier {
      assert r[i] in multiset(pending) && r[j] in multiset(pending);
      var a :| 0 <= a < |pending| && pending[a] == r[i];
      var b :| 0 <= b < |pending| && pending[b] == r[j];
      assert r[i] != r[j];
    }
  }

  /** A sequence holds no element twice exactly when its multiset counts are at most one. */
  lemma {:induction false} DistinctMultiset<T>(s: seq<T>)
    ensures Distinct(s) <==> forall x :: multiset(s)[x] <= 1
  {
    if |s| > 0 {
      var t := s[1..];
      assert s == [s[0]] + t;
      DistinctMultiset(t);
      if Distinct(s) {
        assert Distinct(t);
        assert s[0] !in t;
      } else {
        var i, j :| 0 <= i < j < |s| && s[i] == s[j];
        DuplicateInMultiset(s, i, j);
      }
      if forall x :: multiset(s)[x] <= 1 {
        assert forall x :: multiset(t)[x] <= multiset(s)[x];
        assert s[0] !in t by {
          assert multiset(s)[s[0]] == multiset(t)[s[0]] + 1;
        }
        forall i, j | 0 <= i < j < |s| ensures s[i] != s[j] {
          if i == 0 {
            assert s[j] == t[j - 1];
          } else {
            assert s[i] == t[i - 1] && s[j] == t[j - 1];
          }
        }
      }
    }
  }

  lemma DuplicateInMultiset<T>(s: seq<T>, i: int, j: int)
    requires 0 <= i < j < |s| && s[i] == s[j]
    ensures multiset(s)[s[i]] >= 2
  {
    assert s == s[..i] + [s[i]] + s[i + 1..j] + [s[j]] + s[j + 1..];
  }

  /** The collection the module's own test at src/imports.test.ts:9-23
      builds: four `addNamed` calls on `kysely`, one a repeat. */
  function KyselyTestCollection(): ImportCollection {
    AddNamed(AddNamed(AddNamed(AddNamed(Empty,
      "kysely", [Named("ColumnType")]), "kysely", [Named("ColumnType")]),
      "kysely", [Named("JSONColumnType")]), "kysely", [Named("Generated")])
  }

  /** The four calls register the one module, without a default. */
  lemma KyselyTestShape()
    ensures KyselyTestCollection().order == ["kysely"]
    ensures Lookup(KyselyTestCollection(), "kysely").defaultImport == None
  {
  }

  /** The repeat is dropped and the rest keep the order they were added in. */
  lemma KyselyTestBindings()
    ensures Bindings(KyselyTestCollection(), "kysely") ==
      [Named("ColumnType"), Named("JSONColumnType"), Named("Generated")]
  {
    RepeatDropped(Empty, "kysely", Named("ColumnType"), Named("JSONColumnType"), Named("Generated"));
  }

  /** Adding `a`, `a` again, `b` and `d` one call at a time leaves exactly
      `a, b, d`. */
  lemma RepeatDropped(c: ImportCollection, m: string, a: ImportSpecifier, b: ImportSpecifier, d: ImportSpecifier)
    requires Bindings(c, m) == [] && a != b && a != d && b != d
    ensures Bindings(AddNamed(AddNamed(AddNamed(AddNamed(c, m, [a]), m, [a]), m, [b]), m, [d]), m) == [a, b, d]
  {
    var c1 := AddNamed(c, m, [a]);
    AddOneName(c, m, a);
    assert SetAdd([], a) == [a];
    var c2 := AddNamed(c1, m, [a]);
    AddOneName(c1, m, a);
    assert SetAdd([a], a) == [a];
    var c3 := AddNamed(c2, m, [b]);
    AddOneName(c2, m, b);
    assert SetAdd([a], b) == [a, b];
    AddOneName(c3, m, d);
    assert SetAdd([a, b], d) == [a, b, d];
  }

  /** Adding one name is `Set.prototype.add` on the module's bindings. */
  lemma AddOneName(c: ImportCollection, m: string, x: ImportSpecifier)
    ensures Bindings(AddNamed(c, m, [x]), m) == SetAdd(Bindings(c, m), x)
  {
    var b := Bindings(c, m);
    assert Touch(c, m).entries[m].namedBindings.GetOr([]) == b;
    assert [x][1..] == [];
    assert SetAddAll(b, [x]) == SetAddAll(SetAdd(b, x), []);
  }

  /** The test's expectation: the bindings come back in insertion order,
      not alphabetically. */
  lemma ValuesKeepInsertionOrder()
    ensures Values(KyselyTestCollection())
      == [TypeImport("kysely", None, Some([Named("ColumnType"), Named("JSONColumnType"), Named("Generated")]))]
  {
    var c4 := KyselyTestCollection();
    KyselyTestShape();
    KyselyTestBindings();
    SingleModuleValues(c4, "kysely");
  }

  /** With one module registered, `values()` is that module's snapshot. */
  lemma SingleModuleValues(c: ImportCollection, m: string)
    requires c.order == [m] && Visible(Lookup(c, m))
    ensures Values(c) == [Snapshot(m, Lookup(c, m))]
  {
    assert Snapshots(c, c.order) == [Snapshot(m, Lookup(c, m))];
  }

  /** `addNamed(m)` with no names creates an entry that `values()` hides. */
  lemma EmptyAddNamedInvisible(c: ImportCollection, m: string)
    requires Valid(c) && m !in c.entries
    ensures Values(AddNamed(c, m, [])) == Values(c)
  {
    var r := AddNamed(c, m, []);
    assert !Visible(Lookup(r, m));
    SnapshotsIgnoreHidden(c, r, m, c.order);
    assert Snapshots(r, c.order + [m]) == Snapshots(r, c.order) by {
      SnapshotsAppendHidden(r, c.order, m);
    }
  }

  lemma {:induction false} SnapshotsIgnoreHidden(c: ImportCollection, r: ImportCollection, m: string, keys: seq<string>)
    requires forall k | k != m :: Lookup(r, k) == Lookup(c, k)
    requires m !in keys
    ensures Snapshots(r, keys) == Snapshots(c, keys)
  {
    if |keys| > 0 {
      SnapshotsIgnoreHidden(c, r, m, keys[1..]);
    }
  }

  lemma {:induction false} SnapshotsAppendHidden(c: ImportCollection, keys: seq<string>, m: string)
    requires !Visible(Lookup(c, m))
    ensures Snapshots(c, keys + [m]) == Snapshots(c, keys)
  {
    if |keys| == 0 {
      assert Snapshots(c, [m]) == [];
    } else {
      assert (keys + [m])[1..] == keys[1..] + [m];
      SnapshotsAppendHidden(c, keys[1..], m);
    }
  }
}
