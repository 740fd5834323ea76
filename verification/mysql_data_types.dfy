/** The MySQL data type table of `src/mysql/mysql-data-types.ts`: each
    known `DATA_TYPE` maps to a fixed type or to a rule that reads the
    mysql2 pool options. */
module MysqlDataTypes {
  import opened Wrappers
  import opened Strings
  import opened Types

  /** `dateStrings` is a boolean or a list of type names. */
  datatype DateStrings = DateFlag(on: bool) | DateList(names: seq<string>)

  /** The mysql2 pool options the mapping reads. An absent boolean option
      is falsy, so it is `false` here. */
  datatype PoolConfig = PoolConfig(
    bigNumberStrings: bool,
    decimalNumbers: bool,
    supportBigNumbers: bool,
    jsonStrings: bool,
    dateStrings: DateStrings)

  /** The default `opts = {}`. */
  const NoPoolConfig := PoolConfig(false, false, false, false, DateFlag(false))

  /** The known data types, one constructor per key of `DATA_TYPE_MAP`. */
  datatype DataType =
    // Numeric
    | TinyInt | SmallInt | Int | MediumInt | BigIntType | Decimal | Float | Double | Bit
    // Date and time
    | DateType | Time | DateTime | Timestamp | Year
    // String
    | Char | VarChar | Binary | VarBinary | TinyBlob | Blob | MediumBlob | LongBlob
    | TinyText | TextType | MediumText | LongText | Enum | Set | Vector
    // Spatial
    | Geometry | Point | LineString | Polygon | MultiPoint | MultiLineString | MultiPolygon | GeomCollection
    // JSON
    | Json

  /** The name `information_schema.COLUMNS.DATA_TYPE` reports. */
  function Name(d: DataType): string {
    match d
    case TinyInt => "tinyint"
    case SmallInt => "smallint"
    case Int => "int"
    case MediumInt => "mediumint"
    case BigIntType => "bigint"
    case Decimal => "decimal"
    case Float => "float"
    case Double => "double"
    case Bit => "bit"
    case DateType => "date"
    case Time => "time"
    case DateTime => "datetime"
    case Timestamp => "timestamp"
    case Year => "year"
    case Char => "char"
    case VarChar => "varchar"
    case Binary => "binary"
    case VarBinary => "varbinary"
    case TinyBlob => "tinyblob"
    case Blob => "blob"
    case MediumBlob => "mediumblob"
    case LongBlob => "longblob"
    case TinyText => "tinytext"
    case TextType => "text"
    case MediumText => "mediumtext"
    case LongText => "longtext"
    case Enum => "enum"
    case Set => "set"
    case Vector => "vector"
    case Geometry => "geometry"
    case Point => "point"
    case LineString => "linestring"
    case Polygon => "polygon"
    case MultiPoint => "multipoint"
    case MultiLineString => "multilinestring"
    case MultiPolygon => "multipolygon"
    case GeomCollection => "geomcollection"
    case Json => "json"
  }

  /** The lookup `DATA_TYPE_MAP[type]` on an own key. */
  function Parse(s: string): Option<DataType> {
    match s
    case "tinyint" => Some(TinyInt)
    case "smallint" => Some(SmallInt)
    case "int" => Some(Int)
    case "mediumint" => Some(MediumInt)
    case "bigint" => Some(BigIntType)
    case "decimal" => Some(Decimal)
    case "float" => Some(Float)
    case "double" => Some(Double)
    case "bit" => Some(Bit)
    case "date" => Some(DateType)
    case "time" => Some(Time)
    case "datetime" => Some(DateTime)
    case "timestamp" => Some(Timestamp)
    case "year" => Some(Year)
    case "char" => Some(Char)
    case "varchar" => Some(VarChar)
    case "binary" => Some(Binary)
    case "varbinary" => Some(VarBinary)
    case "tinyblob" => Some(TinyBlob)
    case "blob" => Some(Blob)
    case "mediumblob" => Some(MediumBlob)
    case "longblob" => Some(LongBlob)
    case "tinytext" => Some(TinyText)
    case "text" => Some(TextType)
    case "mediumtext" => Some(MediumText)
    case "longtext" => Some(LongText)
    case "enum" => Some(Enum)
    case "set" => Some(Set)
    case "vector" => Some(Vector)
    case "geometry" => Some(Geometry)
    case "point" => Some(Point)
    case "linestring" => Some(LineString)
    case "polygon" => Some(Polygon)
    case "multipoint" => Some(MultiPoint)
    case "multilinestring" => Some(MultiLineString)
    case "multipolygon" => Some(MultiPolygon)
    case "geomcollection" => Some(GeomCollection)
    case "json" => Some(Json)
    case _ => None
  }

  /** The entry of `DATA_TYPE_MAP`. */
  function MappingOf(d: DataType): Mapping {
    match d
    case TinyInt => Fixed(Number)
    case SmallInt => Fixed(Number)
    case Int => Fixed(Number)
    case MediumInt => Fixed(Number)
    case BigIntType => ByOption(BigNumbersRule)
    case Decimal => ByOption(DecimalNumbersRule)
    case Float => Fixed(Number)
    case Double => Fixed(Number)
    case Bit => Fixed(Buffer)
    case DateType => ByOption(DateStringsRule)
    case Time => Fixed(String)
    case DateTime => ByOption(DateStringsRule)
    case Timestamp => ByOption(DateStringsRule)
    case Year => Fixed(Number)
    case Char => Fixed(String)
    case VarChar => Fixed(String)
    case Binary => Fixed(Buffer)
    case VarBinary => Fixed(Buffer)
    case TinyBlob => Fixed(Buffer)
    case Blob => Fixed(Buffer)
    case MediumBlob => Fixed(Buffer)
    case LongBlob => Fixed(Buffer)
    case TinyText => Fixed(String)
    case TextType => Fixed(String)
    case MediumText => Fixed(String)
    case LongText => Fixed(String)
    case Enum => Fixed(String)
    case Set => Fixed(String)
    case Vector => Fixed(String)
    case Geometry => Fixed(String)
    case Point => Fixed(String)
    case LineString => Fixed(String)
    case Polygon => Fixed(String)
    case MultiPoint => Fixed(String)
    case MultiLineString => Fixed(String)
    case MultiPolygon => Fixed(String)
    case GeomCollection => Fixed(String)
    case Json => ByOption(JsonStringsRule)
  }

  /** The four option-dependent rules. */
  datatype Rule = DateStringsRule | JsonStringsRule | BigNumbersRule | DecimalNumbersRule

  datatype Mapping = Fixed(t: Type) | ByOption(rule: Rule)

  datatype DataTypeError = UnknownDataType(dataType: string)

  /** `dateStrings`: a list names the types (case-insensitively) that stay
      strings; otherwise the option's truthiness decides for all three. */
  function DateStringsType(dataType: string, opts: PoolConfig): Type {
    var asString := match opts.dateStrings
      case DateList(names) => dataType in seq(|names|, i requires 0 <= i < |names| => ToLower(names[i]))
      case DateFlag(on) => on;
    if asString then String else Date
  }

  function JsonStringsType(opts: PoolConfig): Type {
    if opts.jsonStrings then String else Unknown
  }

  function BigNumbersType(opts: PoolConfig): Type {
    if !opts.supportBigNumbers then Number
    else if opts.bigNumberStrings then String
    else Union([Number, String])
  }

  function DecimalNumbersType(opts: PoolConfig): Type {
    if opts.decimalNumbers then Number else BigNumbersType(opts)
  }

  function ApplyRule(rule: Rule, dataType: string, opts: PoolConfig): Type {
    match rule
    case DateStringsRule => DateStringsType(dataType, opts)
    case JsonStringsRule => JsonStringsType(opts)
    case BigNumbersRule => BigNumbersType(opts)
    case DecimalNumbersRule => DecimalNumbersType(opts)
  }

  /** The type a known data type maps to under the given options. */
  function NativeType(d: DataType, opts: PoolConfig): Type {
    match MappingOf(d)
    case Fixed(t) => t
    case ByOption(rule) => ApplyRule(rule, Name(d), opts)
  }

  /** `isDataType`, read as an own-key test of the table (see
      `IsDataTypeAsWritten` for the inherited keys the lookup also sees). */
  predicate IsDataType(s: string) {
    Parse(s).Some?
  }

  /** `getNativeType`: throws on a name the table does not hold. */
  function GetNativeType(dataType: string, opts: PoolConfig): (r: Result<Type, DataTypeError>)
    ensures r.Ok? <==> IsDataType(dataType)
    ensures r.Err? ==> r.error == UnknownDataType(dataType)
    ensures r.Ok? ==> r.value == NativeType(Parse(dataType).value, opts)
  {
    match Parse(dataType)
    case None => Err(UnknownDataType(dataType))
    case Some(d) =>
      match MappingOf(d)
      case Fixed(t) => Ok(t)
      case ByOption(rule) => Ok(ApplyRule(rule, dataType, opts))
  }

  // ----- properties of the table -----

  /** Names and table keys correspond one to one: every name parses back
      to its data type ... */
  lemma NamesRoundTrip(d: DataType)
    ensures Parse(Name(d)) == Some(d)
  {
    if d.TinyInt? || d.SmallInt? || d.Int? || d.MediumInt? || d.BigIntType? || d.Decimal?
      || d.Float? || d.Double? || d.Bit? {
      NumericNamesRoundTrip(d);
    } else if d.DateType? || d.Time? || d.DateTime? || d.Timestamp? || d.Year? {
      DateNamesRoundTrip(d);
    } else if d.Char? || d.VarChar? || d.Binary? || d.VarBinary? || d.TinyBlob? || d.Blob?
      || d.MediumBlob? || d.LongBlob? {
      CharNamesRoundTrip(d);
    } else if d.TinyText? || d.TextType? || d.MediumText? || d.LongText? {
      TextNamesRoundTrip(d);
    } else if d.Enum? || d.Set? || d.Vector? {
      ListNamesRoundTrip(d);
    } else if d.Geometry? || d.Point? {
      ShapeNamesRoundTrip(d);
    } else if d.LineString? || d.Polygon? {
      LineNamesRoundTrip(d);
    } else if d.MultiPoint? || d.MultiLineString? {
      MultiNamesRoundTrip(d);
    } else if d.MultiPolygon? || d.GeomCollection? {
      CollectionNamesRoundTrip(d);
    }
  }

  lemma NumericNamesRoundTrip(d: DataType)
    requires d.TinyInt? || d.SmallInt? || d.Int? || d.MediumInt? || d.BigIntType? || d.Decimal?
      || d.Float? || d.Double? || d.Bit?
    ensures Parse(Name(d)) == Some(d)
  {
  }

  lemma DateNamesRoundTrip(d: DataType)
    requires d.DateType? || d.Time? || d.DateTime? || d.Timestamp? || d.Year?
    ensures Parse(Name(d)) == Some(d)
  {
  }

  lemma CharNamesRoundTrip(d: DataType)
    requires d.Char? || d.VarChar? || d.Binary? || d.VarBinary? || d.TinyBlob? || d.Blob?
      || d.MediumBlob? || d.LongBlob?
    ensures Parse(Name(d)) == Some(d)
  {
  }

  lemma TextNamesRoundTrip(d: DataType)
    requires d.TinyText? || d.TextType? || d.MediumText? || d.LongText?
    ensures Parse(Name(d)) == Some(d)
  {
  }

  lemma ListNamesRoundTrip(d: DataType)
    requires d.Enum? || d.Set? || d.Vector?
    ensures Parse(Name(d)) == Some(d)
  {
  }

  lemma ShapeNamesRoundTrip(d: DataType)
    requires d.Geometry? || d.Point?
    ensures Parse(Name(d)) == Some(d)
  {
  }

  lemma LineNamesRoundTrip(d: DataType)
    requires d.LineString? || d.Polygon?
    ensures Parse(Name(d)) == Some(d)
  {
  }

  lemma MultiNamesRoundTrip(d: DataType)
    requires d.MultiPoint? || d.MultiLineString?
    ensures Parse(Name(d)) == Some(d)
  {
  }

  lemma CollectionNamesRoundTrip(d: DataType)
    requires d.MultiPolygon? || d.GeomCollection?
    ensures Parse(Name(d)) == Some(d)
  {
  }

  /** ... and every key the table holds is the name of what it parses to. */
  lemma KeysRoundTrip(s: string)
    ensures Parse(s).Some? ==> Name(Parse(s).value) == s
  {
  }

  /** Every known name succeeds, with the type its entry gives. */
  /** A name is a data type exactly when it is the key of one. */
  lemma IsDataTypeIffKey(s: string)
    ensures IsDataType(s) <==> exists d: DataType :: Name(d) == s
  {
    KeysRoundTrip(s);
    if exists d: DataType :: Name(d) == s {
      var d: DataType :| Name(d) == s;
      NamesRoundTrip(d);
    }
  }

  lemma KnownNamesSucceed(d: DataType, opts: PoolConfig)
    ensures GetNativeType(Name(d), opts) == Ok(NativeType(d, opts))
  {
    NamesRoundTrip(d);
  }

  predicate IsNumberGroup(d: DataType) {
    d in {TinyInt, SmallInt, Int, MediumInt, Float, Double, Year}
  }

  predicate IsBufferGroup(d: DataType) {
    d in {Bit, Binary, VarBinary, TinyBlob, Blob, MediumBlob, LongBlob}
  }

  predicate IsDateGroup(d: DataType) {
    d in {DateType, DateTime, Timestamp}
  }

  predicate ReadsOptions(d: DataType) {
    IsDateGroup(d) || d in {BigIntType, Decimal, Json}
  }

  /** Integer, floating and year types are numbers, the binary and bit
      types are `Buffer`, and every other type that does not read the
      options (text, enum, set, vector, spatial, `time`) is a string. */
  lemma FixedGroups(d: DataType, opts: PoolConfig)
    ensures IsNumberGroup(d) ==> NativeType(d, opts) == Number
    ensures IsBufferGroup(d) ==> NativeType(d, opts) == Buffer
    ensures !IsNumberGroup(d) && !IsBufferGroup(d) && !ReadsOptions(d) ==> NativeType(d, opts) == String
  {
    if IsNumberGroup(d) {
      NumberGroup(d, opts);
    } else if IsBufferGroup(d) {
      BufferGroup(d, opts);
    } else if !ReadsOptions(d) {
      StringGroup(d, opts);
    }
  }

  lemma NumberGroup(d: DataType, opts: PoolConfig)
    requires IsNumberGroup(d)
    ensures NativeType(d, opts) == Number
  {
  }

  lemma BufferGroup(d: DataType, opts: PoolConfig)
    requires IsBufferGroup(d)
    ensures NativeType(d, opts) == Buffer
  {
  }

  lemma StringGroup(d: DataType, opts: PoolConfig)
    requires !IsNumberGroup(d) && !IsBufferGroup(d) && !ReadsOptions(d)
    ensures NativeType(d, opts) == String
  {
  }

  /** Only `bigint`, `decimal`, `json` and the three date types read the
      pool options. */
  lemma OptionsOnlyMatterFor(d: DataType, o1: PoolConfig, o2: PoolConfig)
    requires !ReadsOptions(d)
    ensures NativeType(d, o1) == NativeType(d, o2)
  {
  }

  /** `decimalNumbers` wins over the big-number options; without it a
      decimal is typed exactly like a bigint. */
  lemma DecimalFollowsBigint(opts: PoolConfig)
    ensures opts.decimalNumbers ==> NativeType(Decimal, opts) == Number
    ensures !opts.decimalNumbers ==> NativeType(Decimal, opts) == NativeType(BigIntType, opts)
  {
  }

  /** The big-number rule: a number without big-number support, else a
      string with `bigNumberStrings`, else `number | string`. */
  lemma BigNumberCases(opts: PoolConfig)
    ensures NativeType(BigIntType, opts) == Number <==> !opts.supportBigNumbers
    ensures NativeType(BigIntType, opts) == String <==> opts.supportBigNumbers && opts.bigNumberStrings
    ensures NativeType(BigIntType, opts) == Union([Number, String])
        <==> opts.supportBigNumbers && !opts.bigNumberStrings
  {
    assert Union([Number, String]) != Number && Union([Number, String]) != String;
  }

  /** JSON is `unknown` unless `jsonStrings` is set. */
  lemma JsonCases(opts: PoolConfig)
    ensures NativeType(Json, opts) == (if opts.jsonStrings then String else Unknown)
    ensures NativeType(Json, opts) == Unknown <==> !opts.jsonStrings
  {
  }

  /** A date type is a string exactly when the flag is on, or when the list
      names it in any letter case; it is a `Date` otherwise. */
  lemma DateCases(d: DataType, opts: PoolConfig)
    requires IsDateGroup(d)
    ensures opts.dateStrings.DateFlag? ==> (NativeType(d, opts) == String <==> opts.dateStrings.on)
    ensures opts.dateStrings.DateList? ==>
      (NativeType(d, opts) == String <==>
        exists i | 0 <= i < |opts.dateStrings.names| :: ToLower(opts.dateStrings.names[i]) == Name(d))
    ensures NativeType(d, opts) == String || NativeType(d, opts) == Date
  {
    assert String != Date;
    if opts.dateStrings.DateList? {
      var names := opts.dateStrings.names;
      var lowered := seq(|names|, i requires 0 <= i < |names| => ToLower(names[i]));
      if Name(d) in lowered {
        var i :| 0 <= i < |lowered| && lowered[i] == Name(d);
        assert ToLower(names[i]) == Name(d);
      }
      if exists i | 0 <= i < |names| :: ToLower(names[i]) == Name(d) {
        var i :| 0 <= i < |names| && ToLower(names[i]) == Name(d);
        assert lowered[i] == Name(d);
      }
    }
  }

  /** `dateStrings: ["DATETIME"]` keeps only `datetime` as a string. */
  lemma DateListExample()
    ensures var opts := NoPoolConfig.(dateStrings := DateList(["DATETIME"]));
      && NativeType(DateTime, opts) == String
      && NativeType(DateType, opts) == Date
      && NativeType(Timestamp, opts) == Date
  {
    var opts := NoPoolConfig.(dateStrings := DateList(["DATETIME"]));
    assert ToLower("DATETIME") == "datetime";
    assert ToLower(["DATETIME"][0]) == Name(DateTime);
    DateCases(DateTime, opts);
    DateCases(DateType, opts);
    DateCases(Timestamp, opts);
  }

  // ----- the lookup as written -----

  /** The properties every plain object inherits from `Object.prototype`. */
  const InheritedKeys: set<string> := {
    "constructor", "__proto__", "__defineGetter__", "__defineSetter__", "__lookupGetter__",
    "__lookupSetter__", "hasOwnProperty", "isPrototypeOf", "propertyIsEnumerable",
    "toLocaleString", "toString", "valueOf"}

  /** `DATA_TYPE_MAP[type] !== undefined` on a plain object literal: an
      inherited property is defined too. */
  predicate IsDataTypeAsWritten(s: string) {
    IsDataType(s) || s in InheritedKeys
  }

  /** The guard as written lets `constructor` through although the table
      does not hold it; the own-key test rejects it, and agrees with the
      guard on every name the table holds. */
  lemma InheritedKeyPassesTheGuard()
    ensures IsDataTypeAsWritten("constructor") && !IsDataType("constructor")
    ensures GetNativeType("constructor", NoPoolConfig) == Err(UnknownDataType("constructor"))
    ensures forall d: DataType :: IsDataType(Name(d)) && IsDataTypeAsWritten(Name(d))
  {
    forall d: DataType ensures IsDataType(Name(d)) {
      NamesRoundTrip(d);
    }
  }
}
