/** The column types the MySQL collector's integration test expects, for
    its table `introspect_tests` with the casts `tinyint(1)` to `boolean`
    and `bigint` to `bigint` and a JSON type for `json_str`. */
module MysqlCollectorExamples {
  import opened Wrappers
  import opened Strings
  import opened Types
  import opened MysqlDataTypes
  import opened MysqlIntrospector
  import opened MysqlCollector

  const TestOptions := TypeOptions(
    map["tinyint(1)" := Boolean, "bigint" := BigInt],
    map["introspect_tests.json_str" := ArrayOf(Number)])

  const TestPool := PoolConfig(true, false, true, false, DateFlag(false))

  function TestColumn(name: string, dataType: string, columnType: string, autoIncrement: bool,
                      members: Option<seq<string>>): MysqlColumn {
    MysqlColumn(name, None, dataType, autoIncrement, false, false, columnType, false, members)
  }

  /** Both cast keys have `i` as their second character. */
  lemma NotATestCast(k: string)
    requires |k| > 1 && k[1] != 'i'
    ensures k !in TestOptions.typeCasts
  {
    assert "tinyint(1)"[1] == 'i' && "bigint"[1] == 'i';
  }

  /** A column type without a space is looked up as itself; when neither it
      nor the data type is a cast key, no cast applies. */
  lemma NoTestCast(columnType: string, dataType: string)
    requires ' ' !in columnType && |columnType| > 1 && columnType[1] != 'i'
    requires |dataType| > 1 && dataType[1] != 'i'
    ensures LookupCast(TestOptions, columnType, dataType) == None
  {
    ParseWithoutSpace(columnType);
    NotATestCast(columnType);
    NotATestCast(dataType);
  }

  /** A cast on the data type wins over the native mapping; the
      auto-increment key is generated. */
  lemma TestIdColumn()
    ensures GetType("introspect_tests", TestColumn("id", "bigint", "bigint", true, None), TestOptions, TestPool)
      == Ok(Generated(BigInt))
  {
    ParseWithoutSpace("bigint");
    assert LookupCast(TestOptions, "bigint", "bigint") == Some(BigInt);
  }

  /** `varchar(200)` has no cast, so its select type is the native
      mapping, `string`. */
  lemma TestVarcharColumn()
    ensures LookupCast(TestOptions, "varchar(200)", "varchar") == None
  {
    NoTestCast("varchar(200)", "varchar");
  }

  lemma TestVarcharMapping()
    ensures GetNativeType("varchar", TestPool) == Ok(String)
  {
    KnownNamesSucceed(VarChar, TestPool);
  }

  /** The JSON column takes its configured type. */
  lemma TestJsonColumn()
    ensures GetType("introspect_tests", TestColumn("json_str", "json", "json", false, None), TestOptions, TestPool)
      == Ok(JSONColumnType(ArrayOf(Number), None, None))
  {
    var col := TestColumn("json_str", "json", "json", false, None);
    NoTestCast(col.columnType, col.dataType);
    assert JsonKey("introspect_tests", "json_str") == "introspect_tests.json_str";
    TypeOfSelected("introspect_tests", col, TestOptions, TestPool, ArrayOf(Number));
  }

  /** The enum has no cast, so its select type is the union of its member
      literals, which prints as the quoted members. */
  lemma TestEnumColumn()
    ensures LookupCast(TestOptions, "enum('foo','bar')", "enum") == None
  {
    NoTestCast("enum('foo','bar')", "enum");
  }

  lemma TestEnumText()
    ensures Text(Union(StringLiterals(["foo", "bar"]))) == "\"foo\" | \"bar\""
  {
    MemberUnionText(["foo", "bar"]);
    assert Quote("foo") == "\"foo\"" by {
      assert "\"" + "foo" == "\"foo";
      assert "\"foo" + "\"" == "\"foo\"";
    }
    assert Quote("bar") == "\"bar\"" by {
      assert "\"" + "bar" == "\"bar";
      assert "\"bar" + "\"" == "\"bar\"";
    }
    assert QuotedValues(["foo", "bar"]) == ["\"foo\"", "\"bar\""];
    JoinAppend(["\"foo\""], ["\"bar\""], " | ");
  }

  /** `int unsigned` is looked up as `t unsigned`, misses, and the column
      falls back to the `int` mapping, `number`. */
  lemma TestUnsignedColumn()
    ensures LookupCast(TestOptions, "int unsigned", "int") == None
  {
    ParseExamples();
    NotATestCast(ParseColumnType("int unsigned"));
    NotATestCast("int");
  }

  lemma TestIntMapping()
    ensures GetNativeType("int", TestPool) == Ok(Number)
  {
    KnownNamesSucceed(Int, TestPool);
  }

  /** The `tinyint(1)` cast turns the boolean column into `boolean`. */
  lemma TestBooleanColumn()
    ensures GetType("introspect_tests", TestColumn("bool_flag", "tinyint", "tinyint(1)", false, None), TestOptions, TestPool)
      == Ok(Boolean)
  {
    var col := TestColumn("bool_flag", "tinyint", "tinyint(1)", false, None);
    assert LookupCast(TestOptions, col.columnType, col.dataType) == Some(Boolean) by {
      ParseWithoutSpace("tinyint(1)");
    }
    TypeOfSelected("introspect_tests", col, TestOptions, TestPool, Boolean);
  }
}
