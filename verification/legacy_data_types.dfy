/** The older, string-valued MySQL data type table of
    `src/mysql/data-types.ts`, used by the legacy introspector. It keys the
    spatial collection type as `geometrycollection` where the typed table
    says `geomcollection`. */
module LegacyDataTypes {
  import opened Wrappers
  import opened Strings
  import Types
  import opened MysqlDataTypes

  /** An entry of `TYPE_MAP`: a fixed type name or an option rule. */
  datatype Entry = NativeText(text: string) | TextByOption(rule: Rule)

  /** The key this table uses for a data type. */
  function LegacyName(d: DataType): string {
    if d == GeomCollection then "geometrycollection" else Name(d)
  }

  /** The lookup `TYPE_MAP[type]` on an own key: the keys of the typed
      table, with the geometry collection under its other name. */
  function LegacyParse(s: string): Option<DataType> {
    if s == "geometrycollection" then Some(GeomCollection)
    else if s == "geomcollection" then None
    else Parse(s)
  }

  /** The entry of `TYPE_MAP`. */
  function EntryOf(d: DataType): Entry {
    match d
    case TinyInt => NativeText("number")
    case SmallInt => NativeText("number")
    case Int => NativeText("number")
    case MediumInt => NativeText("number")
    case BigIntType => TextByOption(BigNumbersRule)
    case Decimal => TextByOption(DecimalNumbersRule)
    case Float => NativeText("number")
    case Double => NativeText("number")
    case Bit => NativeText("Buffer")
    case DateType => TextByOption(DateStringsRule)
    case Time => NativeText("string")
    case DateTime => TextByOption(DateStringsRule)
    case Timestamp => TextByOption(DateStringsRule)
    case Year => NativeText("number")
    case Char => NativeText("string")
    case VarChar => NativeText("string")
    case Binary => NativeText("Buffer")
    case VarBinary => NativeText("Buffer")
    case TinyBlob => NativeText("Buffer")
    case Blob => NativeText("Buffer")
    case MediumBlob => NativeText("Buffer")
    case LongBlob => NativeText("Buffer")
    case TinyText => NativeText("string")
    case TextType => NativeText("string")
    case MediumText => NativeText("string")
    case LongText => NativeText("string")
    case Enum => NativeText("string")
    case Set => NativeText("string")
    case Vector => NativeText("string")
    case Geometry => NativeText("string")
    case Point => NativeText("string")
    case LineString => NativeText("string")
    case Polygon => NativeText("string")
    case MultiPoint => NativeText("string")
    case MultiLineString => NativeText("string")
    case MultiPolygon => NativeText("string")
    case GeomCollection => NativeText("string")
    case Json => TextByOption(JsonStringsRule)
  }

  function DateStringsText(dataType: string, opts: PoolConfig): string {
    var asString := match opts.dateStrings
      case DateList(names) => dataType in seq(|names|, i requires 0 <= i < |names| => ToLower(names[i]))
      case DateFlag(on) => on;
    if asString then "string" else "Date"
  }

  function JsonStringsText(opts: PoolConfig): string {
    if opts.jsonStrings then "string" else "unknown"
  }

  function BigNumbersText(opts: PoolConfig): string {
    if !opts.supportBigNumbers then "number"
    else if opts.bigNumberStrings then "string"
    else "number | string"
  }

  function DecimalNumbersText(opts: PoolConfig): string {
    if opts.decimalNumbers then "number" else BigNumbersText(opts)
  }

  function ApplyRuleText(rule: Rule, dataType: string, opts: PoolConfig): string {
    match rule
    case DateStringsRule => DateStringsText(dataType, opts)
    case JsonStringsRule => JsonStringsText(opts)
    case BigNumbersRule => BigNumbersText(opts)
    case DecimalNumbersRule => DecimalNumbersText(opts)
  }

  predicate IsLegacyDataType(s: string) {
    LegacyParse(s).Some?
  }

  /** `getNativeType` of the legacy table. */
  function GetNativeText(dataType: string, opts: PoolConfig): (r: Result<string, DataTypeError>)
    ensures r.Ok? <==> IsLegacyDataType(dataType)
    ensures r.Err? ==> r.error == UnknownDataType(dataType)
  {
    match LegacyParse(dataType)
    case None => Err(UnknownDataType(dataType))
    case Some(d) =>
      match EntryOf(d)
      case NativeText(t) => Ok(t)
      case TextByOption(rule) => Ok(ApplyRuleText(rule, dataType, opts))
  }

  /** The two tables know the same data types; the only difference in the
      keys is the name of the geometry collection. */
  lemma SameTypesDifferentKey(d: DataType)
    ensures LegacyParse(LegacyName(d)) == Some(d)
  {
    NamesRoundTrip(d);
    NamesRoundTrip(GeomCollection);
  }

  lemma LegacyKeysRoundTrip(s: string)
    ensures LegacyParse(s).Some? ==> LegacyName(LegacyParse(s).value) == s
  {
    KeysRoundTrip(s);
    NamesRoundTrip(GeomCollection);
  }

  /** What the entry of a data type yields under the given options. */
  function EntryText(d: DataType, opts: PoolConfig): string {
    match EntryOf(d)
    case NativeText(t) => t
    case TextByOption(rule) => ApplyRuleText(rule, LegacyName(d), opts)
  }

  /** A name is a legacy data type exactly when it is a key of the legacy
      table. */
  lemma IsLegacyDataTypeIffKey(s: string)
    ensures IsLegacyDataType(s) <==> exists d: DataType :: LegacyName(d) == s
  {
    LegacyKeysRoundTrip(s);
    if exists d: DataType :: LegacyName(d) == s {
      var d: DataType :| LegacyName(d) == s;
      SameTypesDifferentKey(d);
    }
  }

  lemma KnownLegacyNamesSucceed(d: DataType, opts: PoolConfig)
    ensures GetNativeText(LegacyName(d), opts) == Ok(EntryText(d, opts))
  {
    SameTypesDifferentKey(d);
  }

  lemma FixedEntriesAgree(d: DataType, opts: PoolConfig)
    requires !ReadsOptions(d)
    ensures EntryText(d, opts) == Types.Text(NativeType(d, opts))
  {
    FixedGroups(d, opts);
    assert Types.Text(Types.Buffer) == "Buffer";
  }

  lemma OptionEntriesAgree(d: DataType, opts: PoolConfig)
    requires ReadsOptions(d)
    ensures EntryText(d, opts) == Types.Text(NativeType(d, opts))
  {
    assert Types.Text(Types.Union([Types.Number, Types.String])) == "number | string" by {
      Types.PairUnionText(Types.Number, Types.String);
    }
  }

  /** Under every pool configuration the legacy table's text for a data
      type is exactly the rendering of the typed table's type for it. */
  lemma AgreesWithTypedTable(d: DataType, opts: PoolConfig)
    ensures GetNativeText(LegacyName(d), opts) == Ok(Types.Text(NativeType(d, opts)))
  {
    KnownLegacyNamesSucceed(d, opts);
    if ReadsOptions(d) {
      OptionEntriesAgree(d, opts);
    } else {
      FixedEntriesAgree(d, opts);
    }
  }
}
