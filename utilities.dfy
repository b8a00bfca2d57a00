/**
 * `OraOopUtilities`: configuration look-ups with fall-back defaults,
 * `{name|default}` expansion, table-name decoding, data-chunk ids,
 * per-mapper configuration keys, string-array helpers and update-key
 * column splitting.
 *
 * A Hadoop `Configuration` is a map from property names to values; a Java
 * `null` configuration is `None` where the source accepts one.
 */
module Utilities {
  import opened Wrappers
  import opened JavaStrings
  import opened OracleTables

  type Configuration = map<string, string>

  // ------------------------------------------------------- property names

  const ORAOOP_ORACLE_DATA_CHUNK_METHOD: string := "oraoop.chunk.method"
  const ORAOOP_ORACLE_BLOCK_TO_SPLIT_ALLOCATION_METHOD: string := "oraoop.block.allocation"
  const ORAOOP_TABLE_IMPORT_WHERE_CLAUSE_LOCATION: string := "oraoop.table.import.where.clause.location"
  const ORAOOP_TABLE_OWNER: string := "oraoop.table.owner"
  const ORAOOP_TABLE_NAME: string := "oraoop.table.name"
  const ORAOOP_UPDATE_KEY_EXTRA_COLUMNS: string := "oraoop.update.key.extra.columns"
  const MAPPER_MULTIPLIER: string := "oraoop.datachunk.mapper.multiplier"
  const RESULT_INCREMENT: string := "oraoop.datachunk.result.increment"
  const MAPPER_JDBC_URL_PREFIX: string := "oraoop.mapper.jdbc.url."

  const CONF_NULL_MESSAGE: string := "The conf argument cannot be null"

  /** `conf.get(name)`: the value, or `None` (Java `null`) when unset. */
  function Get(conf: Configuration, name: string): (r: Option<string>)
    ensures r.Some? <==> name in conf
    ensures r.Some? ==> r.value == conf[name]
  {
    if name in conf then Some(conf[name]) else None
  }

  /** `conf.get(name, default)`. */
  function GetOrDefault(conf: Configuration, name: string, default: string): (r: string)
    ensures name !in conf ==> r == default
    ensures name in conf ==> r == conf[name]
  {
    if name in conf then conf[name] else default
  }

  /**
   * `conf.getInt(name, default)`: the default when unset, otherwise the
   * trimmed value parsed as a decimal `int`; an unparsable value is a
   * NumberFormatException (`None`).
   */
  function GetInt(conf: Configuration, name: string, default: int32): (r: Option<int32>)
    ensures name !in conf ==> r == Some(default)
    ensures name in conf ==> r == ParseInt(Trim(conf[name]))
  {
    if name in conf then ParseInt(Trim(conf[name])) else Some(default)
  }

  // ------------------------------------------------------------ enum names

  datatype DataChunkMethod = ROWID | PARTITION
  datatype BlockAllocationMethod = ROUNDROBIN | SEQUENTIAL | RANDOM
  datatype WhereClauseLocation = SUBSPLIT | SPLIT

  const ORAOOP_ORACLE_DATA_CHUNK_METHOD_DEFAULT: DataChunkMethod := ROWID

  function ChunkMethodName(m: DataChunkMethod): string {
    match m
    case ROWID => "ROWID"
    case PARTITION => "PARTITION"
  }

  function AllocationMethodName(m: BlockAllocationMethod): string {
    match m
    case ROUNDROBIN => "ROUNDROBIN"
    case SEQUENTIAL => "SEQUENTIAL"
    case RANDOM => "RANDOM"
  }

  function LocationName(l: WhereClauseLocation): string {
    match l
    case SUBSPLIT => "SUBSPLIT"
    case SPLIT => "SPLIT"
  }

  /** `values()` in declaration order. */
  const ALLOCATION_METHODS: seq<BlockAllocationMethod> := [ROUNDROBIN, SEQUENTIAL, RANDOM]
  const LOCATIONS: seq<WhereClauseLocation> := [SUBSPLIT, SPLIT]

  /** `Enum.valueOf`: the constant whose name is exactly `s`, if any. */
  function ChunkMethodValueOf(s: string): (r: Option<DataChunkMethod>)
    ensures forall m :: r == Some(m) <==> ChunkMethodName(m) == s
  {
    if s == "ROWID" then Some(ROWID) else if s == "PARTITION" then Some(PARTITION) else None
  }

  function AllocationMethodValueOf(s: string): (r: Option<BlockAllocationMethod>)
    ensures forall m :: r == Some(m) <==> AllocationMethodName(m) == s
  {
    if s == "ROUNDROBIN" then Some(ROUNDROBIN)
    else if s == "SEQUENTIAL" then Some(SEQUENTIAL)
    else if s == "RANDOM" then Some(RANDOM)
    else None
  }

  function LocationValueOf(s: string): (r: Option<WhereClauseLocation>)
    ensures forall l :: r == Some(l) <==> LocationName(l) == s
  {
    if s == "SUBSPLIT" then Some(SUBSPLIT) else if s == "SPLIT" then Some(SPLIT) else None
  }

  /** Names separated by `" or "`, as the valid-value lists print them. */
  function JoinOr(names: seq<string>): string {
    if |names| == 0 then ""
    else if |names| == 1 then names[0]
    else JoinOr(names[..|names| - 1]) + " or " + names[|names| - 1]
  }

  /**
   * The `StringBuilder` loops of `getOraOopOracleBlockToSplitAllocationMethods`
   * and `getOraOopTableImportWhereClauseLocations`: every name, `" or "`
   * between neighbours.
   */
  method JoinNames(names: seq<string>) returns (r: string)
    ensures r == JoinOr(names)
  {
    r := "";
    var idx := 0;
    while idx < |names|
      invariant 0 <= idx <= |names|
      invariant r == JoinOr(names[..idx])
    {
      if idx > 0 {
        r := r + " or ";
      }
      r := r + names[idx];
      assert names[..idx + 1][..idx] == names[..idx];
      idx := idx + 1;
    }
    assert names[..|names|] == names;
  }

  function AllocationMethodNames(): string {
    JoinOr([AllocationMethodName(ALLOCATION_METHODS[0]), AllocationMethodName(ALLOCATION_METHODS[1]),
            AllocationMethodName(ALLOCATION_METHODS[2])])
  }

  function LocationNames(): string {
    JoinOr([LocationName(LOCATIONS[0]), LocationName(LOCATIONS[1])])
  }

  /** The valid-value lists the warnings quote. */
  lemma ValidValueLists()
    ensures AllocationMethodNames() == "ROUNDROBIN or SEQUENTIAL or RANDOM"
    ensures LocationNames() == "SUBSPLIT or SPLIT"
  {
    JoinOrThree("ROUNDROBIN", "SEQUENTIAL", "RANDOM");
    JoinOrTwo("SUBSPLIT", "SPLIT");
  }

  lemma JoinOrTwo(a: string, b: string)
    ensures JoinOr([a, b]) == a + " or " + b
  {
    assert [a, b][..1] == [a];
  }

  lemma JoinOrThree(a: string, b: string, c: string)
    ensures JoinOr([a, b, c]) == a + " or " + b + " or " + c
  {
    assert [a, b, c][..2] == [a, b];
    JoinOrTwo(a, b);
  }

  // ------------------------------------------------------------ enum look-up

  /** A look-up result, with the error text logged when the value was invalid. */
  datatype Lookup<T> = Lookup(value: T, logged: Option<string>)

  /** How the getters normalise a property value before `valueOf`. */
  function Normalise(s: string): string {
    Trim(ToUpper(s))
  }

  const INVALID_VALUE_PREFIX: string := "An invalid value of \""

  function InvalidChunkMethodMessage(value: string): string {
    INVALID_VALUE_PREFIX + value + ChunkMethodMessageTail()
  }

  function ChunkMethodMessageTail(): string {
    "\" was specified for the \"" + ORAOOP_ORACLE_DATA_CHUNK_METHOD
      + "\" configuration property value.\n" + "\tThe default value of "
      + ChunkMethodName(ORAOOP_ORACLE_DATA_CHUNK_METHOD_DEFAULT) + " will be used."
  }

  function InvalidAllocationMethodMessage(value: string, default: BlockAllocationMethod): string {
    INVALID_VALUE_PREFIX + value + AllocationMethodMessageTail(default)
  }

  function AllocationMethodMessageTail(default: BlockAllocationMethod): string {
    "\" was specified for the \"" + ORAOOP_ORACLE_BLOCK_TO_SPLIT_ALLOCATION_METHOD
      + "\" configuration property value.\n" + "\tValid values are: " + AllocationMethodNames() + "\n"
      + "\tThe default value of " + AllocationMethodName(default) + " will be used."
  }

  function InvalidLocationMessage(value: string, default: WhereClauseLocation): string {
    INVALID_VALUE_PREFIX + value + LocationMessageTail(default)
  }

  /** Note the missing space before `was`, as in the source. */
  function LocationMessageTail(default: WhereClauseLocation): string {
    "\"was specified for the \"" + ORAOOP_TABLE_IMPORT_WHERE_CLAUSE_LOCATION
      + "\" configuration property value.\n" + "\tValid values are: " + LocationNames() + "\n"
      + "\tThe default value of " + LocationName(default) + " will be used."
  }

  /**
   * `getOraOopOracleDataChunkMethod`: a null configuration is refused; an
   * unset property gives ROWID; a value naming a method once upper-cased and
   * trimmed gives that method; any other value gives ROWID and logs it.
   */
  function GetDataChunkMethod(conf: Option<Configuration>): (r: Result<Lookup<DataChunkMethod>, string>)
    ensures conf.None? <==> r.Err?
    ensures r.Err? ==> r.error == CONF_NULL_MESSAGE
    ensures conf.Some? && ORAOOP_ORACLE_DATA_CHUNK_METHOD !in conf.value ==>
              r == Ok(Lookup(ORAOOP_ORACLE_DATA_CHUNK_METHOD_DEFAULT, None))
    ensures conf.Some? && ORAOOP_ORACLE_DATA_CHUNK_METHOD in conf.value ==>
              var v := Normalise(conf.value[ORAOOP_ORACLE_DATA_CHUNK_METHOD]);
              (forall m :: ChunkMethodName(m) == v ==> r == Ok(Lookup(m, None)))
              && ((forall m :: ChunkMethodName(m) != v) ==>
                    r == Ok(Lookup(ORAOOP_ORACLE_DATA_CHUNK_METHOD_DEFAULT, Some(InvalidChunkMethodMessage(v)))))
  {
    if conf.None? then Err(CONF_NULL_MESSAGE)
    else
      var s := Get(conf.value, ORAOOP_ORACLE_DATA_CHUNK_METHOD);
      if s.None? then Ok(Lookup(ORAOOP_ORACLE_DATA_CHUNK_METHOD_DEFAULT, None))
      else
        var v := Normalise(s.value);
        var m := ChunkMethodValueOf(v);
        if m.Some? then Ok(Lookup(m.value, None))
        else Ok(Lookup(ORAOOP_ORACLE_DATA_CHUNK_METHOD_DEFAULT, Some(InvalidChunkMethodMessage(v))))
  }

  /**
   * `getOraOopOracleBlockToSplitAllocationMethod(conf, default)`: as the
   * chunk-method getter, with the caller's default and a warning that also
   * lists the valid values.
   */
  function GetBlockAllocationMethod(conf: Option<Configuration>, default: BlockAllocationMethod)
    : (r: Result<Lookup<BlockAllocationMethod>, string>)
    ensures conf.None? <==> r.Err?
    ensures r.Err? ==> r.error == CONF_NULL_MESSAGE
    ensures conf.Some? && ORAOOP_ORACLE_BLOCK_TO_SPLIT_ALLOCATION_METHOD !in conf.value ==>
              r == Ok(Lookup(default, None))
    ensures conf.Some? && ORAOOP_ORACLE_BLOCK_TO_SPLIT_ALLOCATION_METHOD in conf.value ==>
              var v := Normalise(conf.value[ORAOOP_ORACLE_BLOCK_TO_SPLIT_ALLOCATION_METHOD]);
              (forall m :: AllocationMethodName(m) == v ==> r == Ok(Lookup(m, None)))
              && ((forall m :: AllocationMethodName(m) != v) ==>
                    r == Ok(Lookup(default, Some(InvalidAllocationMethodMessage(v, default)))))
  {
    if conf.None? then Err(CONF_NULL_MESSAGE)
    else
      var s := Get(conf.value, ORAOOP_ORACLE_BLOCK_TO_SPLIT_ALLOCATION_METHOD);
      if s.None? then Ok(Lookup(default, None))
      else
        var v := Normalise(s.value);
        var m := AllocationMethodValueOf(v);
        if m.Some? then Ok(Lookup(m.value, None))
        else Ok(Lookup(default, Some(InvalidAllocationMethodMessage(v, default))))
  }

  /** `getOraOopTableImportWhereClauseLocation(conf, default)`. */
  function GetWhereClauseLocation(conf: Option<Configuration>, default: WhereClauseLocation)
    : (r: Result<Lookup<WhereClauseLocation>, string>)
    ensures conf.None? <==> r.Err?
    ensures r.Err? ==> r.error == CONF_NULL_MESSAGE
    ensures conf.Some? && ORAOOP_TABLE_IMPORT_WHERE_CLAUSE_LOCATION !in conf.value ==>
              r == Ok(Lookup(default, None))
    ensures conf.Some? && ORAOOP_TABLE_IMPORT_WHERE_CLAUSE_LOCATION in conf.value ==>
              var v := Normalise(conf.value[ORAOOP_TABLE_IMPORT_WHERE_CLAUSE_LOCATION]);
              (forall l :: LocationName(l) == v ==> r == Ok(Lookup(l, None)))
              && ((forall l :: LocationName(l) != v) ==>
                    r == Ok(Lookup(default, Some(InvalidLocationMessage(v, default)))))
  {
    if conf.None? then Err(CONF_NULL_MESSAGE)
    else
      var s := Get(conf.value, ORAOOP_TABLE_IMPORT_WHERE_CLAUSE_LOCATION);
      if s.None? then Ok(Lookup(default, None))
      else
        var v := Normalise(s.value);
        var l := LocationValueOf(v);
        if l.Some? then Ok(Lookup(l.value, None))
        else Ok(Lookup(default, Some(InvalidLocationMessage(v, default))))
  }

  /**
   * Every warning quotes the offending value, as normalised, right after
   * its fixed opening words.
   */
  lemma InvalidMessagesQuoteValue(v: string, a: BlockAllocationMethod, l: WhereClauseLocation)
    ensures InvalidChunkMethodMessage(v)[|INVALID_VALUE_PREFIX|..|INVALID_VALUE_PREFIX| + |v|] == v
    ensures InvalidAllocationMethodMessage(v, a)[|INVALID_VALUE_PREFIX|..|INVALID_VALUE_PREFIX| + |v|] == v
    ensures InvalidLocationMessage(v, l)[|INVALID_VALUE_PREFIX|..|INVALID_VALUE_PREFIX| + |v|] == v
  {
    PrefixedSlice(INVALID_VALUE_PREFIX, v, ChunkMethodMessageTail());
    PrefixedSlice(INVALID_VALUE_PREFIX, v, AllocationMethodMessageTail(a));
    PrefixedSlice(INVALID_VALUE_PREFIX, v, LocationMessageTail(l));
  }

  lemma PrefixedSlice(p: string, v: string, rest: string)
    ensures (p + v + rest)[|p|..|p| + |v|] == v
  {
  }

  /** `"partition"`, in lower case, selects PARTITION. */
  lemma ChunkMethodPartition(conf: Configuration)
    ensures GetDataChunkMethod(Some(conf[ORAOOP_ORACLE_DATA_CHUNK_METHOD := "partition"]))
            == Ok(Lookup(PARTITION, None))
  {
    var c := conf[ORAOOP_ORACLE_DATA_CHUNK_METHOD := "partition"];
    assert ORAOOP_ORACLE_DATA_CHUNK_METHOD in c && c[ORAOOP_ORACLE_DATA_CHUNK_METHOD] == "partition";
    NormalisePartition();
  }

  lemma NormalisePartition()
    ensures Normalise("partition") == "PARTITION" == ChunkMethodName(PARTITION)
  {
    var u := ToUpper("partition");
    forall i | 0 <= i < |u|
      ensures u[i] == "PARTITION"[i]
    {
    }
    assert u == "PARTITION";
  }

  // ----------------------------------------------- chunks per data file

  /**
   * `getNumberOfDataChunksPerOracleDataFile`: `desired * multiplier +
   * increment` in `int` arithmetic, multiplier and increment read as
   * integers with defaults 2 and 1; an unparsable setting is an error.
   */
  function NumberOfDataChunksPerOracleDataFile(desired: int32, conf: Configuration): (r: Option<int32>)
    ensures r.Some? <==> GetInt(conf, MAPPER_MULTIPLIER, 2).Some? && GetInt(conf, RESULT_INCREMENT, 1).Some?
    ensures r.Some? ==>
              var m := GetInt(conf, MAPPER_MULTIPLIER, 2).value;
              var i := GetInt(conf, RESULT_INCREMENT, 1).value;
              r.value == Wrap32(desired * m + i)
  {
    var m := GetInt(conf, MAPPER_MULTIPLIER, 2);
    var i := GetInt(conf, RESULT_INCREMENT, 1);
    if m.None? || i.None? then None else Some(ChunksPerFile(desired, m.value, i.value))
  }

  /** `desired * multiplier + increment`, each step wrapped as Java's `int` does. */
  function ChunksPerFile(desired: int32, multiplier: int32, increment: int32): (r: int32)
    ensures r == Wrap32(desired * multiplier + increment)
  {
    WrapAdd(desired * multiplier, increment);
    Wrap32(Wrap32(desired * multiplier) + increment)
  }

  /**
   * With the default settings the chunk count is `2 * desired + 1`, which
   * is never a multiple of the number of mappers: each split ends up with
   * a different share of every data file's start.
   */
  lemma DefaultChunksPerFile(desired: int32, conf: Configuration)
    requires MAPPER_MULTIPLIER !in conf && RESULT_INCREMENT !in conf
    requires 2 <= desired && 2 * desired + 1 <= MAX_INT
    ensures NumberOfDataChunksPerOracleDataFile(desired, conf) == Some(2 * desired + 1)
    ensures (2 * desired + 1) % desired == 1
  {
    assert GetInt(conf, MAPPER_MULTIPLIER, 2) == Some(2);
    assert GetInt(conf, RESULT_INCREMENT, 1) == Some(1);
    assert Wrap32(desired * 2 + 1) == 2 * desired + 1;
    ModOfMultiplePlusOne(desired, 2);
  }

  lemma ModOfMultiplePlusOne(d: int, q: int)
    requires d >= 2
    ensures (d * q + 1) % d == 1
  {
    var x := d * q + 1;
    var k := x / d;
    var r := x % d;
    assert x == d * k + r && 0 <= r < d;
    var m := k - q;
    assert d * m == 1 - r by {
      assert d * k == d * m + d * q;
    }
  }

  // -------------------------------------------------------- identifiers

  /** `generateDataChunkId(fileId, fileBatch)`: `fileId_fileBatch` in decimal. */
  function GenerateDataChunkId(fileId: int32, fileBatch: int32): (r: string)
    ensures |r| == |IntToString(fileId)| + 1 + |IntToString(fileBatch)|
    ensures r[..|IntToString(fileId)|] == IntToString(fileId)
    ensures r[|IntToString(fileId)|] == '_'
  {
    IntToString(fileId) + "_" + IntToString(fileBatch)
  }

  /** Reads a data-chunk id back: two `_`-separated decimal `int`s. */
  function ParseDataChunkId(s: string): Option<(int32, int32)> {
    var parts := Split(s, '_');
    if |parts| != 2 then None
    else
      var f := ParseInt(parts[0]);
      var b := ParseInt(parts[1]);
      if f.Some? && b.Some? then Some((f.value, b.value)) else None
  }

  lemma NoUnderscoreInNumber(x: int32)
    ensures '_' !in IntToString(x)
  {
    var s := IntToString(x);
    forall i | 0 <= i < |s| ensures s[i] != '_' {
      assert IsDigit(s[i]) || s[i] == '-';
    }
  }

  /** A chunk id names its file and batch: parsing recovers both. */
  lemma DataChunkIdRoundTrip(fileId: int32, fileBatch: int32)
    ensures ParseDataChunkId(GenerateDataChunkId(fileId, fileBatch)) == Some((fileId, fileBatch))
  {
    var ps := [IntToString(fileId), IntToString(fileBatch)];
    NoUnderscoreInNumber(fileId);
    NoUnderscoreInNumber(fileBatch);
    assert Join(ps, '_') == GenerateDataChunkId(fileId, fileBatch) by {
      assert ps[1..] == [IntToString(fileBatch)];
    }
    SplitJoin(ps, '_');
    ParseIntToString(fileId);
    ParseIntToString(fileBatch);
  }

  /** Distinct (file, batch) pairs get distinct chunk ids. */
  lemma DataChunkIdInjective(f1: int32, b1: int32, f2: int32, b2: int32)
    requires GenerateDataChunkId(f1, b1) == GenerateDataChunkId(f2, b2)
    ensures f1 == f2 && b1 == b2
  {
    DataChunkIdRoundTrip(f1, b1);
    DataChunkIdRoundTrip(f2, b2);
  }

  lemma DataChunkIdExamples()
    ensures GenerateDataChunkId(1, 1) == "1_1"
    ensures GenerateDataChunkId(1234, 99) == "1234_99"
  {
    assert NatToString(1) == "1";
    assert NatToString(1234) == "1234" by {
      assert NatToString(1) == "1";
      assert NatToString(12) == "12";
      assert NatToString(123) == "123";
    }
    assert NatToString(99) == "99" by {
      assert NatToString(9) == "9";
    }
  }

  /** `getMapperJdbcUrlPropertyName(mapperId, conf)`. */
  function MapperJdbcUrlPropertyName(mapperId: int32): (r: string)
    ensures |r| == |MAPPER_JDBC_URL_PREFIX| + |IntToString(mapperId)|
    ensures r[..|MAPPER_JDBC_URL_PREFIX|] == MAPPER_JDBC_URL_PREFIX
    ensures r[|MAPPER_JDBC_URL_PREFIX|..] == IntToString(mapperId)
  {
    MAPPER_JDBC_URL_PREFIX + IntToString(mapperId)
  }

  /** Different mappers never share a JDBC-URL property. */
  lemma MapperJdbcUrlPropertyNameInjective(a: int32, b: int32)
    requires a != b
    ensures MapperJdbcUrlPropertyName(a) != MapperJdbcUrlPropertyName(b)
  {
    if MapperJdbcUrlPropertyName(a) == MapperJdbcUrlPropertyName(b) {
      IntToStringInjective(a, b);
    }
  }

  // ------------------------------------------------- table-name decoding

  function DecodeErrorMessage(tableStr: string): string {
    "Unable to decode the table name: " + tableStr
  }

  function StripTrailingDot(s: string): (r: string)
    ensures EndsWith(s, ".") ==> r == s[..|s| - 1]
    ensures !EndsWith(s, ".") ==> r == s
  {
    if EndsWith(s, ".") then s[..|s| - 1] else s
  }

  function StripLeadingDot(s: string): (r: string)
    ensures StartsWith(s, ".") ==> r == s[1..]
    ensures !StartsWith(s, ".") ==> r == s
  {
    if StartsWith(s, ".") then s[1..] else s
  }

  /**
   * `decodeOracleTableName(user, tableStr)`: `table`, `schema.table` and
   * their double-quoted forms. Unquoted parts are upper-cased, quoted parts
   * kept verbatim, and a missing schema is the upper-cased connection
   * user. Two or more unquoted dots, or too many quotes, cannot be decoded.
   */
  function DecodeOracleTableName(user: string, tableStr: string): (r: Result<OracleTable, string>)
    ensures r.Ok? ==> r.value.schema.Some? && r.value.name.Some?
    ensures r.Err? ==> r.error == DecodeErrorMessage(tableStr)
  {
    var quoted := Split(tableStr, '"');
    if |quoted| == 1 then
      var dotted := Split(tableStr, '.');
      if |dotted| == 1 then Ok(Qualified(ToUpper(user), ToUpper(dotted[0])))
      else if |dotted| == 2 then Ok(Qualified(ToUpper(dotted[0]), ToUpper(dotted[1])))
      else Err(DecodeErrorMessage(tableStr))
    else if |quoted| == 2 then
      var owner := if quoted[0] == "" then ToUpper(user) else StripTrailingDot(ToUpper(quoted[0]));
      Ok(Qualified(owner, quoted[1]))
    else if |quoted| == 3 then Ok(Qualified(quoted[1], StripLeadingDot(ToUpper(quoted[2]))))
    else if |quoted| == 4 then Ok(Qualified(quoted[1], quoted[3]))
    else Err(DecodeErrorMessage(tableStr))
  }

  lemma Join3(a: string, b: string, c: string, d: char)
    ensures Join([a, b, c], d) == a + [d] + b + [d] + c
  {
    assert [a, b, c][1..] == [b, c];
    assert [b, c][1..] == [c];
    assert Join([c], d) == c;
    assert Join([b, c], d) == b + [d] + c;
  }

  /** Splitting at a delimiter absent from both sides of one occurrence. */
  lemma SplitTwo(a: string, b: string, d: char)
    requires d !in a && d !in b && b != ""
    ensures Split(a + [d] + b, d) == [a, b]
  {
    assert Join([a, b], d) == a + [d] + b by { assert [a, b][1..] == [b]; }
    SplitJoin([a, b], d);
  }

  /** A bare name belongs to the connection user; both are upper-cased. */
  lemma DecodeUnqualified(user: string, name: string)
    requires '"' !in name && '.' !in name
    ensures DecodeOracleTableName(user, name) == Ok(Qualified(ToUpper(user), ToUpper(name)))
  {
  }

  /** `schema.table` without quotes: both parts upper-cased. */
  lemma DecodeDotted(user: string, owner: string, name: string)
    requires '"' !in owner && '.' !in owner && '"' !in name && '.' !in name && name != ""
    ensures DecodeOracleTableName(user, owner + "." + name) == Ok(Qualified(ToUpper(owner), ToUpper(name)))
  {
    var s := owner + "." + name;
    assert s == owner + ['.'] + name;
    assert '"' !in s;
    SplitTwo(owner, name, '.');
  }

  /** Two unquoted dots cannot be decoded. */
  lemma DecodeTooManyDots(user: string, a: string, b: string, c: string)
    requires '"' !in a && '"' !in b && '"' !in c && '.' !in a && '.' !in b && '.' !in c && c != ""
    ensures DecodeOracleTableName(user, a + "." + b + "." + c).Err?
  {
    var s := a + "." + b + "." + c;
    assert s == Join([a, b, c], '.') by { Join3(a, b, c, '.'); }
    assert '"' !in s;
    SplitJoin([a, b, c], '.');
  }

  /** `"table"`: the connection user's table, name kept verbatim. */
  lemma DecodeQuotedName(user: string, name: string)
    requires '"' !in name && name != ""
    ensures DecodeOracleTableName(user, "\"" + name + "\"") == Ok(Qualified(ToUpper(user), name))
  {
    var s := "\"" + name + "\"";
    assert s == "" + ['"'] + (name + ['"'] + "");
    SplitAllCons("", '"', name + ['"'] + "");
    SplitAllCons(name, '"', "");
    assert SplitAll(s, '"') == ["", name, ""];
    assert DropTrailingEmpty(["", name, ""]) == ["", name] by {
      assert ["", name, ""][..2] == ["", name];
    }
  }

  /** `schema."table"`: schema upper-cased, name kept verbatim. */
  lemma DecodeQuotedNameWithSchema(user: string, owner: string, name: string)
    requires '"' !in owner && '.' !in owner && owner != "" && '"' !in name && name != ""
    ensures DecodeOracleTableName(user, owner + ".\"" + name + "\"") == Ok(Qualified(ToUpper(owner), name))
  {
    var s := owner + ".\"" + name + "\"";
    assert s == (owner + ".") + ['"'] + (name + ['"'] + "");
    SplitAllCons(owner + ".", '"', name + ['"'] + "");
    SplitAllCons(name, '"', "");
    assert SplitAll(s, '"') == [owner + ".", name, ""];
    assert DropTrailingEmpty([owner + ".", name, ""]) == [owner + ".", name] by {
      assert [owner + ".", name, ""][..2] == [owner + ".", name];
    }
    ToUpperConcat(owner, ".");
    assert ToUpper(owner + ".")[..|owner|] == ToUpper(owner);
  }

  /** `"schema".table`: schema kept verbatim, even with dots; name upper-cased. */
  lemma DecodeQuotedSchema(user: string, owner: string, name: string)
    requires '"' !in owner && '"' !in name && name != ""
    ensures DecodeOracleTableName(user, "\"" + owner + "\"." + name) == Ok(Qualified(owner, ToUpper(name)))
  {
    QuotedSchemaSplit(owner, name);
    ToUpperConcat(".", name);
    assert ToUpper("." + name)[1..] == ToUpper(name);
  }

  /** `"schema".table` splits at its quotes into the schema and the dotted table. */
  lemma QuotedSchemaSplit(owner: string, name: string)
    requires '"' !in owner && '"' !in name
    ensures Split("\"" + owner + "\"." + name, '"') == ["", owner, "." + name]
  {
    var s := "\"" + owner + "\"." + name;
    QuotedSchemaText(owner, name);
    SplitAllCons("", '"', owner + ['"'] + ("." + name));
    SplitAllCons(owner, '"', "." + name);
    SplitAllNoDelimiter("." + name, '"');
    KeepThree("", owner, "." + name);
  }

  lemma QuotedSchemaText(owner: string, name: string)
    ensures var s := "\"" + owner + "\"." + name;
            s[0] == '"' && s == "" + ['"'] + (owner + ['"'] + ("." + name))
  {
  }

  lemma KeepThree(a: string, b: string, c: string)
    requires c != ""
    ensures DropTrailingEmpty([a] + ([b] + [c])) == [a, b, c]
  {
    assert [a] + ([b] + [c]) == [a, b, c];
  }

  /** `"schema"."table"`: both kept verbatim, dots and case included. */
  lemma DecodeQuotedBoth(user: string, owner: string, name: string)
    requires '"' !in owner && '"' !in name && name != ""
    ensures DecodeOracleTableName(user, "\"" + owner + "\".\"" + name + "\"") == Ok(Qualified(owner, name))
  {
    QuotedBothSplit(owner, name);
  }

  /** `"schema"."table"` splits at its quotes into the schema, the dot and the table. */
  lemma QuotedBothSplit(owner: string, name: string)
    requires '"' !in owner && '"' !in name && name != ""
    ensures Split("\"" + owner + "\".\"" + name + "\"", '"') == ["", owner, ".", name]
  {
    var s := "\"" + owner + "\".\"" + name + "\"";
    QuotedBothText(owner, name);
    SplitAllCons("", '"', owner + ['"'] + ("." + ['"'] + (name + ['"'] + "")));
    SplitAllCons(owner, '"', "." + ['"'] + (name + ['"'] + ""));
    SplitAllCons(".", '"', name + ['"'] + "");
    SplitAllCons(name, '"', "");
    DropLastOfFive("", owner, ".", name);
  }

  lemma QuotedBothText(owner: string, name: string)
    ensures var s := "\"" + owner + "\".\"" + name + "\"";
            s[0] == '"' && s == "" + ['"'] + (owner + ['"'] + ("." + ['"'] + (name + ['"'] + "")))
  {
  }

  lemma DropLastOfFive(a: string, b: string, c: string, d: string)
    requires d != ""
    ensures DropTrailingEmpty([a] + ([b] + ([c] + ([d] + SplitAll("", '"'))))) == [a, b, c, d]
  {
    assert [a] + ([b] + ([c] + ([d] + SplitAll("", '"')))) == [a, b, c, d, ""];
    assert [a, b, c, d, ""][..4] == [a, b, c, d];
  }

  /**
   * What `OracleTable.toString` prints for an upper-case unquoted table
   * decodes back to that table.
   */
  lemma DecodeToString(user: string, t: OracleTable)
    requires t.schema.Some? && t.name.Some?
    requires var o := t.schema.value; o != "" && '"' !in o && '.' !in o && ToUpper(o) == o
    requires var n := t.name.value; n != "" && '"' !in n && '.' !in n && ToUpper(n) == n
    ensures DecodeOracleTableName(user, ToString(t)) == Ok(t)
  {
    DecodeDotted(user, t.schema.value, t.name.value);
  }

  /** The job configuration, which `decodeOracleTableName` also writes to. */
  class JobConf {
    var entries: Configuration

    constructor (entries: Configuration)
      ensures this.entries == entries
    {
      this.entries := entries;
    }

    /** `conf.set(name, value)`. */
    method Set(name: string, value: string)
      modifies this
      ensures entries == old(entries)[name := value]
    {
      entries := entries[name := value];
    }
  }

  /** Both decoded parts are already recorded in the configuration. */
  predicate Cached(entries: Configuration) {
    ORAOOP_TABLE_OWNER in entries && ORAOOP_TABLE_NAME in entries
  }

  /**
   * `decodeOracleTableName(user, tableStr, conf)`: the owner and name
   * recorded in the configuration when both are there; otherwise the
   * decoded table, which is then recorded. Afterwards a non-null
   * configuration holds the answer, so a second call returns it directly.
   */
  method DecodeOracleTableNameCached(user: string, tableStr: string, conf: JobConf?)
    returns (r: Result<OracleTable, string>)
    modifies conf
    ensures conf != null && Cached(old(conf.entries)) ==>
              r == Ok(Qualified(old(conf.entries)[ORAOOP_TABLE_OWNER], old(conf.entries)[ORAOOP_TABLE_NAME]))
              && conf.entries == old(conf.entries)
    ensures (conf == null || !Cached(old(conf.entries))) ==> r == DecodeOracleTableName(user, tableStr)
    ensures conf != null && !Cached(old(conf.entries)) && r.Ok? ==>
              conf.entries == old(conf.entries)[ORAOOP_TABLE_OWNER := r.value.schema.value]
                                               [ORAOOP_TABLE_NAME := r.value.name.value]
    ensures conf != null && r.Err? ==> conf.entries == old(conf.entries)
    ensures conf != null && r.Ok? ==>
              Get(conf.entries, ORAOOP_TABLE_OWNER) == r.value.schema
              && Get(conf.entries, ORAOOP_TABLE_NAME) == r.value.name
  {
    var result := Unnamed();
    if conf != null {
      result := OracleTable(Get(conf.entries, ORAOOP_TABLE_OWNER), Get(conf.entries, ORAOOP_TABLE_NAME));
    }
    if result.schema.None? || result.name.None? {
      r := DecodeOracleTableName(user, tableStr);
      if r.Err? {
        return;
      }
      if conf != null {
        conf.Set(ORAOOP_TABLE_OWNER, r.value.schema.value);
        conf.Set(ORAOOP_TABLE_NAME, r.value.name.value);
      }
    } else {
      r := Ok(result);
    }
  }

  // ------------------------------------------- configuration expressions

  /** The `{name|default}` parts: the name, and the default (`""` when absent). */
  function ExpressionParts(expression: string): (r: (string, string))
    ensures '|' !in expression ==> r == (expression, "")
    ensures '|' in expression ==> expression == r.0 + "|" + r.1 && '|' !in r.0
  {
    var pos := IndexOf(expression, '|');
    if pos == -1 then (expression, "")
    else
      assert expression == expression[..pos] + "|" + expression[pos + 1..];
      (expression[..pos], expression[pos + 1..])
  }

  /** The value an expression stands for: the property if set, else its default. */
  function Resolve(expression: string, conf: Configuration): (r: string)
    ensures ExpressionParts(expression).0 in conf ==> r == conf[ExpressionParts(expression).0]
    ensures ExpressionParts(expression).0 !in conf ==> r == ExpressionParts(expression).1
  {
    var (name, default) := ExpressionParts(expression);
    GetOrDefault(conf, name, default)
  }

  /** Property values that cannot close an expression. */
  predicate NoClosingBrace(conf: Configuration) {
    forall name :: name in conf ==> '}' !in conf[name]
  }

  /** The expression between the first `{` and the first `}`, when it is well placed. */
  predicate HasExpression(str: string) {
    0 <= IndexOf(str, '{') && 0 <= IndexOf(str, '}') && IndexOf(str, '{') + 1 <= IndexOf(str, '}')
  }

  function FirstExpression(str: string): string
    requires HasExpression(str)
  {
    str[IndexOf(str, '{') + 1..IndexOf(str, '}')]
  }

  /**
   * The expansion of `str` ends after finitely many rounds because every
   * value it substitutes, round after round, is free of `}`: each round
   * then removes a `}` from the text.
   */
  predicate Expandable(str: string, conf: Configuration)
    decreases Count('}', str)
  {
    HasExpression(str) ==>
      var expression := FirstExpression(str);
      var value := Resolve(expression, conf);
      '}' !in value
      && (ReplaceRemovesBrace(str, conf);
          Expandable(Replace(str, "{" + expression + "}", value), conf))
  }

  const SUBSTRING_ERROR: string := "begin > end"

  lemma CountPositive(c: char, s: string, i: nat)
    requires i < |s| && s[i] == c
    ensures Count(c, s) >= 1
  {
    if Count(c, s) == 0 {
      CountAbsent(c, s);
    }
  }

  /**
   * `replaceConfigurationExpression(str, conf)`: the text between the first
   * `{` and the first `}` is an expression; every occurrence of it, braces
   * included, is replaced by its value, and the result is expanded again.
   * Text without a `{` or without a `}` is returned as it is; a `}` before
   * the first `{` makes `substring` throw.
   */
  function ReplaceConfigurationExpression(str: string, conf: Configuration): (r: Result<string, string>)
    requires Expandable(str, conf)
    ensures IndexOf(str, '{') == -1 || IndexOf(str, '}') == -1 ==> r == Ok(str)
    ensures IndexOf(str, '}') != -1 && IndexOf(str, '{') > IndexOf(str, '}') ==> r == Err(SUBSTRING_ERROR)
    decreases Count('}', str)
  {
    var startPos := IndexOf(str, '{');
    var endPos := IndexOf(str, '}');
    if startPos == -1 || endPos == -1 then Ok(str)
    else if startPos + 1 > endPos then Err(SUBSTRING_ERROR)
    else
      var expression := str[startPos + 1..endPos];
      var value := Resolve(expression, conf);
      ReplaceRemovesBrace(str, conf);
      ReplaceConfigurationExpression(Replace(str, "{" + expression + "}", value), conf)
  }

  /**
   * A successful expansion leaves no complete expression behind: its result
   * lacks a `{` or a `}`, and it holds no more `}` than the text did.
   */
  lemma {:induction false} ExpansionComplete(str: string, conf: Configuration)
    requires Expandable(str, conf) && ReplaceConfigurationExpression(str, conf).Ok?
    ensures var r := ReplaceConfigurationExpression(str, conf).value;
            ('{' !in r || '}' !in r) && Count('}', r) <= Count('}', str)
    decreases Count('}', str)
  {
    if HasExpression(str) {
      var expression := FirstExpression(str);
      var next := Replace(str, "{" + expression + "}", Resolve(expression, conf));
      ReplaceUnfold(str, conf, expression);
      ReplaceRemovesBrace(str, conf);
      ExpansionComplete(next, conf);
    }
  }

  /** Replacing the first expression by a value without `}` removes at least its closing brace. */
  lemma ReplaceRemovesBrace(str: string, conf: Configuration)
    requires HasExpression(str) && '}' !in Resolve(FirstExpression(str), conf)
    ensures var expression := FirstExpression(str);
            Count('}', Replace(str, "{" + expression + "}", Resolve(expression, conf))) < Count('}', str)
  {
    var expression := FirstExpression(str);
    var value := Resolve(expression, conf);
    FirstTarget(str);
    CountAbsent('}', value);
    ReplaceCount('}', str, "{" + expression + "}", value, IndexOf(str, '{'));
  }

  /** The first expression, braces included, sits at the first `{` and holds a `}`. */
  lemma FirstTarget(str: string)
    requires HasExpression(str)
    ensures var target := "{" + FirstExpression(str) + "}";
            var startPos := IndexOf(str, '{');
            startPos + |target| <= |str| && str[startPos..startPos + |target|] == target
            && Count('}', target) >= 1
  {
    var startPos := IndexOf(str, '{');
    var endPos := IndexOf(str, '}');
    var target := "{" + FirstExpression(str) + "}";
    BracedAt(str, startPos, endPos);
    assert |target| == endPos + 1 - startPos;
    assert target[|target| - 1] == '}';
    CountPositive('}', target, |target| - 1);
  }

  /** The text before the first `}` holds none. */
  lemma FirstExpressionFree(str: string)
    requires HasExpression(str)
    ensures '}' !in FirstExpression(str)
  {
    var startPos := IndexOf(str, '{');
    var endPos := IndexOf(str, '}');
    assert str[startPos + 1..endPos] == str[..endPos][startPos + 1..];
  }

  /** A `{` and a later `}` enclose the text between them. */
  lemma BracedAt(str: string, startPos: nat, endPos: nat)
    requires startPos < endPos < |str| && str[startPos] == '{' && str[endPos] == '}'
    ensures str[startPos..endPos + 1] == "{" + str[startPos + 1..endPos] + "}"
  {
  }

  /** A default, being part of the expression, holds no `}` either. */
  lemma ResolveNoClosingBrace(expression: string, conf: Configuration)
    requires NoClosingBrace(conf) && '}' !in expression
    ensures '}' !in Resolve(expression, conf)
  {
    var (name, default) := ExpressionParts(expression);
    if name !in conf && '|' in expression {
      forall i | 0 <= i < |default| ensures default[i] != '}' {
        assert default[i] == expression[|name| + 1 + i];
      }
    }
  }

  /** When no property value holds a `}`, every text expands. */
  lemma {:induction false} NoClosingBraceExpandable(str: string, conf: Configuration)
    requires NoClosingBrace(conf)
    ensures Expandable(str, conf)
    decreases Count('}', str)
  {
    if HasExpression(str) {
      var expression := FirstExpression(str);
      FirstExpressionFree(str);
      ResolveNoClosingBrace(expression, conf);
      ReplaceRemovesBrace(str, conf);
      NoClosingBraceExpandable(Replace(str, "{" + expression + "}", Resolve(expression, conf)), conf);
    }
  }

  lemma IndexOfAt(s: string, c: char, k: nat)
    requires k < |s| && s[k] == c && c !in s[..k]
    ensures IndexOf(s, c) == k
  {
  }

  /** The braces around an expression are the first of their kind. */
  lemma ExpressionBounds(before: string, expression: string, after: string)
    requires '{' !in before && '}' !in before && '}' !in expression
    ensures var str := before + "{" + expression + "}" + after;
            IndexOf(str, '{') == |before| && IndexOf(str, '}') == |before| + 1 + |expression|
            && HasExpression(str) && FirstExpression(str) == expression
  {
    var str := before + "{" + expression + "}" + after;
    var close := |before| + 1 + |expression|;
    assert str[..|before|] == before;
    IndexOfAt(str, '{', |before|);
    assert str[..close] == before + "{" + expression;
    IndexOfAt(str, '}', close);
    assert str[|before| + 1..close] == expression;
  }

  /** Only the one occurrence of the target is replaced. */
  lemma ReplaceOnce(before: string, target: string, after: string, value: string)
    requires |target| > 0 && target[0] !in before && target[|target| - 1] !in after
    ensures Replace(before + target + after, target, value) == before + value + after
  {
    assert before + target + after == before + (target + after);
    ReplaceSkip(before, target + after, target, value);
    ReplaceHead(target, after, value);
    ReplaceAbsent(after, target, value);
  }

  /**
   * A text with a well-formed first expression expands as that
   * expression's replacement does.
   */
  lemma ReplaceUnfold(str: string, conf: Configuration, expression: string)
    requires Expandable(str, conf) && HasExpression(str) && FirstExpression(str) == expression
    ensures '}' !in Resolve(expression, conf)
    ensures var next := Replace(str, "{" + expression + "}", Resolve(expression, conf));
            Expandable(next, conf)
            && ReplaceConfigurationExpression(str, conf) == ReplaceConfigurationExpression(next, conf)
  {
  }

  /** Text without a `}` is left as it is, whatever the configuration. */
  lemma ReplaceNothing(str: string, conf: Configuration)
    requires '}' !in str
    ensures Expandable(str, conf) && ReplaceConfigurationExpression(str, conf) == Ok(str)
  {
  }

  /**
   * One expression between brace-free text is replaced by its value: the
   * configured property, else the default after `|`, else nothing.
   */
  lemma ExpandOne(before: string, expression: string, after: string, conf: Configuration)
    requires '{' !in before && '}' !in before && '}' !in expression && '}' !in after
    requires '}' !in Resolve(expression, conf)
    ensures Expandable(before + "{" + expression + "}" + after, conf)
    ensures ReplaceConfigurationExpression(before + "{" + expression + "}" + after, conf)
            == Ok(before + Resolve(expression, conf) + after)
  {
    var str := before + "{" + expression + "}" + after;
    var value := Resolve(expression, conf);
    var result := before + value + after;
    ExpressionBounds(before, expression, after);
    BracedReplaced(before, expression, after, value);
    ReplaceNothing(result, conf);
    ExpandStep(str, conf, expression);
  }

  /** Replacing the one braced expression leaves the text around it and no `}`. */
  lemma BracedReplaced(before: string, expression: string, after: string, value: string)
    requires '{' !in before && '}' !in before && '}' !in after && '}' !in value
    ensures Replace(before + "{" + expression + "}" + after, "{" + expression + "}", value) == before + value + after
    ensures '}' !in before + value + after
  {
    var target := "{" + expression + "}";
    assert before + "{" + expression + "}" + after == before + target + after;
    ReplaceOnce(before, target, after, value);
  }

  /**
   * A text whose first expression resolves to a `}`-free value, and whose
   * replacement expands, expands as that replacement does.
   */
  lemma ExpandStep(str: string, conf: Configuration, expression: string)
    requires HasExpression(str) && FirstExpression(str) == expression
    requires '}' !in Resolve(expression, conf)
    requires Expandable(Replace(str, "{" + expression + "}", Resolve(expression, conf)), conf)
    ensures Expandable(str, conf)
    ensures ReplaceConfigurationExpression(str, conf)
            == ReplaceConfigurationExpression(Replace(str, "{" + expression + "}", Resolve(expression, conf)), conf)
  {
  }

  /** An expression `name|default` splits at its one `|`. */
  lemma ExpressionPartsOf(name: string, default: string)
    requires '|' !in name
    ensures ExpressionParts(name + "|" + default) == (name, default)
  {
    IndexOfAt(name + "|" + default, '|', |name|);
    assert (name + "|" + default)[..|name|] == name;
  }

  /** Replacing an expression skips a later, different expression. */
  lemma ReplaceSkipsOther(e1: string, e2: string, after: string, value: string)
    requires '{' !in e1 && '}' !in e1 && '{' !in e2 && '}' !in e2 && '{' !in after && e1 != e2
    ensures Replace("{" + e2 + "}" + after, "{" + e1 + "}", value) == "{" + e2 + "}" + after
  {
    var target := "{" + e1 + "}";
    var s := "{" + e2 + "}" + after;
    var tail := e2 + "}" + after;
    BracedTail(e2, after);
    if |s| >= |target| {
      BracedMismatch(e1, e2, after);
      ReplaceNoMatch(s, target, value);
    } else {
      ReplaceShort(s, target, value);
    }
    ReplaceSkip(tail, "", target, value);
    EmptyTail(tail);
  }

  /** A braced expression starts with its brace and goes on with the rest. */
  lemma BracedTail(e: string, after: string)
    ensures |"{" + e + "}" + after| > 0
    ensures ("{" + e + "}" + after)[0] == '{'
    ensures ("{" + e + "}" + after)[1..] == e + "}" + after
  {
    assert "{" + e + "}" + after == ['{'] + (e + "}" + after);
  }

  /** Different expressions without braces do not open the same way. */
  lemma BracedMismatch(e1: string, e2: string, after: string)
    requires '{' !in e1 && '}' !in e1 && '{' !in e2 && '}' !in e2 && e1 != e2
    requires |"{" + e2 + "}" + after| >= |"{" + e1 + "}"|
    ensures ("{" + e2 + "}" + after)[..|"{" + e1 + "}"|] != "{" + e1 + "}"
  {
    var target := "{" + e1 + "}";
    var s := "{" + e2 + "}" + after;
    if |e2| == |e1| {
      assert s[1..|target| - 1] == e2;
      assert target[1..|target| - 1] == e1;
    } else if |e2| > |e1| {
      assert s[|target| - 1] == e2[|e1|];
    } else {
      assert s[|e2| + 1] == '}';
      assert target[|e2| + 1] == e1[|e2|];
    }
  }

  /** Where the text does not start with the target, its first character is kept. */
  lemma ReplaceNoMatch(s: string, target: string, replacement: string)
    requires 0 < |target| <= |s| && s[..|target|] != target
    ensures Replace(s, target, replacement) == [s[0]] + Replace(s[1..], target, replacement)
  {
  }

  /** Text shorter than the target is left as it is. */
  lemma ReplaceShort(s: string, target: string, replacement: string)
    requires 0 < |s| < |target|
    ensures Replace(s, target, replacement) == [s[0]] + Replace(s[1..], target, replacement)
  {
    assert [s[0]] + s[1..] == s;
  }

  lemma EmptyTail(s: string)
    ensures s + "" == s
  {
  }

  /** Of two different expressions, replacing the first leaves the second. */
  lemma ReplaceFirstOfTwo(before: string, e1: string, middle: string, e2: string, after: string, value: string)
    requires '{' !in before && '{' !in middle && '{' !in after
    requires '{' !in e1 && '}' !in e1 && '{' !in e2 && '}' !in e2 && e1 != e2
    ensures Replace(before + "{" + e1 + "}" + (middle + "{" + e2 + "}" + after), "{" + e1 + "}", value)
            == before + value + middle + "{" + e2 + "}" + after
  {
    var t1 := "{" + e1 + "}";
    var second := "{" + e2 + "}" + after;
    var rest := middle + second;
    FirstOfTwoText(before, e1, middle, e2, after, value);
    ReplaceSkip(before, t1 + rest, t1, value);
    ReplaceHead(t1, rest, value);
    ReplaceSkip(middle, second, t1, value);
    ReplaceSkipsOther(e1, e2, after, value);
  }

  /** How the text of two expressions regroups around the first. */
  lemma FirstOfTwoText(before: string, e1: string, middle: string, e2: string, after: string, value: string)
    ensures ("{" + e1 + "}")[0] == '{'
    ensures before + "{" + e1 + "}" + (middle + "{" + e2 + "}" + after)
            == before + ("{" + e1 + "}" + (middle + ("{" + e2 + "}" + after)))
    ensures before + (value + (middle + ("{" + e2 + "}" + after))) == before + value + middle + "{" + e2 + "}" + after
  {
  }

  /**
   * Two different expressions are replaced one round after the other, each
   * by its own value.
   */
  lemma ExpandTwo(before: string, e1: string, middle: string, e2: string, after: string, conf: Configuration)
    requires '{' !in before && '}' !in before && '{' !in middle && '}' !in middle
    requires '{' !in after && '}' !in after
    requires '{' !in e1 && '}' !in e1 && '{' !in e2 && '}' !in e2 && e1 != e2
    requires '{' !in Resolve(e1, conf) && '}' !in Resolve(e1, conf) && '}' !in Resolve(e2, conf)
    ensures var str := before + "{" + e1 + "}" + (middle + "{" + e2 + "}" + after);
            Expandable(str, conf)
            && ReplaceConfigurationExpression(str, conf)
               == Ok(before + Resolve(e1, conf) + middle + Resolve(e2, conf) + after)
  {
    var v1 := Resolve(e1, conf);
    var rest := middle + "{" + e2 + "}" + after;
    var str := before + "{" + e1 + "}" + rest;
    ExpressionBounds(before, e1, rest);
    ReplaceFirstOfTwo(before, e1, middle, e2, after, v1);
    var next := before + v1 + middle + "{" + e2 + "}" + after;
    ExpandOne(before + v1 + middle, e2, after, conf);
    assert next == (before + v1 + middle) + "{" + e2 + "}" + after;
    assert before + v1 + middle + Resolve(e2, conf) + after
        == (before + v1 + middle) + Resolve(e2, conf) + after;
    assert Expandable(str, conf);
    ReplaceUnfold(str, conf, e1);
  }

  // ----------------------------------------------------- string arrays

  /** The test `stringArrayIndexOf` applies to each element. */
  predicate Matches(element: string, value: string, ignoreCase: bool) {
    element == value || (ignoreCase && EqualsIgnoreCase(element, value))
  }

  /**
   * `stringArrayIndexOf` and `stringListIndexOf`: the first position whose
   * element equals the value (or, with `ignoreCase`, equals it ignoring
   * case), or -1 when there is none.
   */
  method StringArrayIndexOf(list: seq<string>, value: string, ignoreCase: bool) returns (idx: int)
    ensures -1 <= idx < |list|
    ensures idx == -1 <==> forall k :: 0 <= k < |list| ==> !Matches(list[k], value, ignoreCase)
    ensures idx >= 0 ==> Matches(list[idx], value, ignoreCase)
    ensures idx >= 0 ==> forall k :: 0 <= k < idx ==> !Matches(list[k], value, ignoreCase)
  {
    idx := 0;
    while idx < |list|
      invariant 0 <= idx <= |list|
      invariant forall k :: 0 <= k < idx ==> !Matches(list[k], value, ignoreCase)
    {
      if list[idx] == value {
        return;
      }
      if ignoreCase && EqualsIgnoreCase(list[idx], value) {
        return;
      }
      idx := idx + 1;
    }
    idx := -1;
  }

  /** `stringArrayContains`: some element matches. */
  method StringArrayContains(list: seq<string>, value: string, ignoreCase: bool) returns (found: bool)
    ensures found <==> exists k :: 0 <= k < |list| && Matches(list[k], value, ignoreCase)
  {
    var idx := StringArrayIndexOf(list, value, ignoreCase);
    found := idx > -1;
  }

  const NULL_LIST_MESSAGE: string := "The list argument cannot be null"

  /** Elements `i < j` that the duplicate scan pairs up. */
  predicate DuplicatePair(list: seq<string>, i: int, j: int, ignoreCase: bool) {
    0 <= i < j < |list| && Matches(list[i], list[j], ignoreCase)
  }

  /** Some element of `found` equals `value` ignoring case. */
  predicate ContainsIgnoringCase(found: seq<string>, value: string) {
    exists k :: 0 <= k < |found| && EqualsIgnoreCase(found[k], value)
  }

  /**
   * What the scan guarantees for a pair: an exactly repeated value is
   * reported as it is; a value repeated only up to case is reported in
   * some spelling.
   */
  predicate Reported(found: seq<string>, list: seq<string>, i: int, j: int)
    requires 0 <= i < j < |list|
  {
    if list[i] == list[j] then list[j] in found else ContainsIgnoringCase(found, list[j])
  }

  /** Every reported value is the later element of a duplicate pair. */
  ghost predicate Sound(found: seq<string>, list: seq<string>, ignoreCase: bool) {
    forall k :: 0 <= k < |found| ==> exists i, j :: DuplicatePair(list, i, j, ignoreCase) && found[k] == list[j]
  }

  predicate NoRepeats(found: seq<string>) {
    forall a, b :: 0 <= a < b < |found| ==> found[a] != found[b]
  }

  /** Some element of `found` matches `value` as `stringListIndexOf` compares. */
  predicate MatchedIn(found: seq<string>, value: string, ignoreCase: bool) {
    exists k :: 0 <= k < |found| && Matches(found[k], value, ignoreCase)
  }

  /**
   * The scan's step for the pair `i < j`: an exact repeat is added unless
   * already reported exactly; with `ignoreCase` a case-only repeat is added
   * unless already reported in some spelling.
   */
  function ScanStep(found: seq<string>, list: seq<string>, i: int, j: int, ignoreCase: bool): seq<string>
    requires 0 <= i < j < |list|
  {
    if list[i] == list[j] then
      if list[j] in found then found else found + [list[j]]
    else if ignoreCase && EqualsIgnoreCase(list[i], list[j]) then
      if MatchedIn(found, list[j], ignoreCase) then found else found + [list[j]]
    else found
  }

  /**
   * The rest of the scan from the pair `(i, j)` on, with `found` reported
   * so far: `j` runs to the end of the list, then `i` moves on one.
   */
  function ScanFrom(found: seq<string>, list: seq<string>, i: int, j: int, ignoreCase: bool): seq<string>
    requires 0 <= i < j <= |list|
    decreases |list| - i, |list| - j
  {
    if j < |list| then ScanFrom(ScanStep(found, list, i, j, ignoreCase), list, i, j + 1, ignoreCase)
    else if i + 2 < |list| then ScanFrom(found, list, i + 1, i + 2, ignoreCase)
    else found
  }

  /** One pair of the inner loop. */
  lemma ScanInner(found: seq<string>, list: seq<string>, i: int, j: int, ignoreCase: bool)
    requires 0 <= i < j < |list|
    ensures ScanFrom(found, list, i, j, ignoreCase)
            == ScanFrom(ScanStep(found, list, i, j, ignoreCase), list, i, j + 1, ignoreCase)
  {
  }

  /** The end of the inner loop moves the outer loop on, or ends the scan. */
  lemma ScanOuter(found: seq<string>, list: seq<string>, i: int, ignoreCase: bool)
    requires 0 <= i < |list| - 1
    ensures ScanFrom(found, list, i, |list|, ignoreCase)
            == if i + 2 < |list| then ScanFrom(found, list, i + 1, i + 2, ignoreCase) else found
  {
  }

  /** The values the scan over all pairs reports, in the order it reports them. */
  function Duplicates(list: seq<string>, ignoreCase: bool): seq<string> {
    if |list| < 2 then [] else ScanFrom([], list, 0, 1, ignoreCase)
  }

  /**
   * `getDuplicatedStringArrayValues`: a null array is refused. Otherwise
   * the values that repeat an earlier element (exactly, or with
   * `ignoreCase` also up to case), each reported once, in the order the
   * scan meets them. An exact repeat is compared exactly against what is
   * already reported, a case-only repeat ignoring case, so `A, a, b, A`
   * with `ignoreCase` reports both `a` and `A`.
   */
  method GetDuplicatedStringArrayValues(list: Option<seq<string>>, ignoreCase: bool)
    returns (r: Result<seq<string>, string>)
    ensures list.None? <==> r.Err?
    ensures r.Err? ==> r.error == NULL_LIST_MESSAGE
    ensures r.Ok? ==> r.value == Duplicates(list.value, ignoreCase)
  {
    if list.None? {
      return Err(NULL_LIST_MESSAGE);
    }
    var items := list.value;
    var duplicates: seq<string> := [];
    var idx1 := 0;
    while idx1 < |items| - 1
      invariant 0 <= idx1 <= |items|
      invariant idx1 < |items| - 1 ==> ScanFrom(duplicates, items, idx1, idx1 + 1, ignoreCase) == Duplicates(items, ignoreCase)
      invariant idx1 >= |items| - 1 ==> duplicates == Duplicates(items, ignoreCase)
    {
      var idx2 := idx1 + 1;
      while idx2 < |items|
        invariant idx1 + 1 <= idx2 <= |items|
        invariant ScanFrom(duplicates, items, idx1, idx2, ignoreCase) == Duplicates(items, ignoreCase)
      {
        ghost var before := duplicates;
        if items[idx1] == items[idx2] {
          if items[idx2] !in duplicates {
            duplicates := duplicates + [items[idx2]];
          }
        } else if ignoreCase && EqualsIgnoreCase(items[idx1], items[idx2]) {
          var at := StringArrayIndexOf(duplicates, items[idx2], ignoreCase);
          if at == -1 {
            duplicates := duplicates + [items[idx2]];
          }
        }
        assert duplicates == ScanStep(before, items, idx1, idx2, ignoreCase);
        ScanInner(before, items, idx1, idx2, ignoreCase);
        idx2 := idx2 + 1;
      }
      ScanOuter(duplicates, items, idx1, ignoreCase);
      idx1 := idx1 + 1;
    }
    return Ok(duplicates);
  }

  /**
   * What the scan reports: no value twice, only values that repeat an
   * earlier element, and every repeated value (an exact repeat as it is,
   * a case-only repeat in some spelling).
   */
  lemma DuplicatesReported(list: seq<string>, ignoreCase: bool)
    ensures var found := Duplicates(list, ignoreCase);
            && NoRepeats(found) && Sound(found, list, ignoreCase)
            && forall i, j :: DuplicatePair(list, i, j, ignoreCase) ==> Reported(found, list, i, j)
  {
    if |list| >= 2 {
      ScanFromReported([], list, 0, 1, ignoreCase);
    }
  }

  /**
   * The scan on `A, a, b, A`: exactly `A` without `ignoreCase`; with it,
   * `a` (from the pair `A, a`) and then `A` (an exact repeat, checked
   * exactly against the reported `a`), in that order.
   */
  lemma DuplicatesMixedCase()
    ensures Duplicates(["A", "a", "b", "A"], false) == ["A"]
    ensures Duplicates(["A", "a", "b", "A"], true) == ["a", "A"]
  {
    var list := ["A", "a", "b", "A"];
    assert EqualsIgnoreCase("A", "a") && !EqualsIgnoreCase("A", "b") && !EqualsIgnoreCase("a", "b") by {
      assert UpperChar('A') == 'A' && UpperChar('a') == 'A' && UpperChar('b') == 'B';
      assert ToUpper("A")[0] == 'A' && ToUpper("a")[0] == 'A' && ToUpper("b")[0] == 'B';
    }
    // without ignoreCase only the pair (0, 3) matches
    assert ScanFrom([], list, 0, 1, false) == ScanFrom([], list, 0, 3, false);
    assert ScanFrom([], list, 0, 3, false) == ScanFrom(["A"], list, 1, 2, false);
    assert ScanFrom(["A"], list, 1, 2, false) == ["A"];
    // with it the pair (0, 1) reports `a` first
    assert !MatchedIn([], "a", true);
    assert ScanStep([], list, 0, 1, true) == ["a"];
    assert ScanFrom([], list, 0, 1, true) == ScanFrom(["a"], list, 0, 2, true);
    assert ScanFrom(["a"], list, 0, 2, true) == ScanFrom(["a"], list, 0, 3, true);
    assert ScanStep(["a"], list, 0, 3, true) == ["a", "A"];
    assert ["a", "A"][1] == "A" && Matches(["a", "A"][1], "A", true);
    assert MatchedIn(["a", "A"], "A", true) && ScanStep(["a", "A"], list, 1, 3, true) == ["a", "A"];
    assert ScanFrom(["a", "A"], list, 1, 2, true) == ScanFrom(["a", "A"], list, 2, 3, true);
    assert ScanFrom(["a", "A"], list, 2, 3, true) == ["a", "A"];
  }

  /**
   * What holds of `found` once the scan has looked at every pair before
   * `(i, j)`: no exact repeats, nothing unsound, each of those pairs reported.
   */
  ghost predicate ScannedBefore(found: seq<string>, list: seq<string>, i: int, j: int, ignoreCase: bool) {
    && NoRepeats(found) && Sound(found, list, ignoreCase)
    && forall a, b {:trigger Reported(found, list, a, b)} ::
         DuplicatePair(list, a, b, ignoreCase) && (a < i || (a == i && b < j)) ==> Reported(found, list, a, b)
  }

  /** The rest of the scan keeps what the step lemma keeps, through the last pair. */
  lemma {:induction false} ScanFromReported(found: seq<string>, list: seq<string>, i: int, j: int, ignoreCase: bool)
    requires 0 <= i < j <= |list|
    requires ScannedBefore(found, list, i, j, ignoreCase)
    ensures ScannedBefore(ScanFrom(found, list, i, j, ignoreCase), list, |list|, 0, ignoreCase)
    decreases |list| - i, |list| - j
  {
    if j < |list| {
      var next := ScanStep(found, list, i, j, ignoreCase);
      assert ScannedBefore(next, list, i, j + 1, ignoreCase) by {
        ScanStepKeeps(found, list, i, j, ignoreCase);
      }
      ScanFromReported(next, list, i, j + 1, ignoreCase);
      assert ScanFrom(found, list, i, j, ignoreCase) == ScanFrom(next, list, i, j + 1, ignoreCase);
    } else if i + 2 < |list| {
      ScannedRow(found, list, i, ignoreCase);
      ScanFromReported(found, list, i + 1, i + 2, ignoreCase);
      assert ScanFrom(found, list, i, j, ignoreCase) == ScanFrom(found, list, i + 1, i + 2, ignoreCase);
    } else {
      ScannedAll(found, list, i, ignoreCase);
    }
  }

  /** Having scanned row `i` to its end is having scanned everything before row `i + 1`. */
  lemma ScannedRow(found: seq<string>, list: seq<string>, i: int, ignoreCase: bool)
    requires 0 <= i && i + 2 < |list|
    requires ScannedBefore(found, list, i, |list|, ignoreCase)
    ensures ScannedBefore(found, list, i + 1, i + 2, ignoreCase)
  {
    forall a, b | DuplicatePair(list, a, b, ignoreCase) && (a < i + 1 || (a == i + 1 && b < i + 2))
      ensures Reported(found, list, a, b)
    {
      assert a < i || (a == i && b < |list|);
    }
  }

  /** Having scanned the last row that has a pair is having scanned every pair. */
  lemma ScannedAll(found: seq<string>, list: seq<string>, i: int, ignoreCase: bool)
    requires 0 <= i && |list| <= i + 2
    requires ScannedBefore(found, list, i, |list|, ignoreCase)
    ensures ScannedBefore(found, list, |list|, 0, ignoreCase)
  {
    forall a, b | DuplicatePair(list, a, b, ignoreCase)
      ensures Reported(found, list, a, b)
    {
      assert a < i || (a == i && b < |list|);
    }
  }

  /**
   * One step of the scan keeps what is reported free of exact repeats and
   * sound, and reports the pair it looks at.
   */
  lemma ScanStepKeeps(before: seq<string>, list: seq<string>, i: int, j: int, ignoreCase: bool)
    requires 0 <= i < j < |list|
    requires ScannedBefore(before, list, i, j, ignoreCase)
    ensures ScannedBefore(ScanStep(before, list, i, j, ignoreCase), list, i, j + 1, ignoreCase)
  {
    var after := ScanStep(before, list, i, j, ignoreCase);
    if after == before {
      if list[i] != list[j] && ignoreCase && EqualsIgnoreCase(list[i], list[j]) {
        var k :| 0 <= k < |before| && Matches(before[k], list[j], ignoreCase);
        assert EqualsIgnoreCase(before[k], list[j]);
      }
    } else {
      assert after == before + [list[j]] && DuplicatePair(list, i, j, ignoreCase);
      assert forall k :: 0 <= k < |before| ==> before[k] != list[j];
      assert after[|before|] == list[j];
      assert Sound(after, list, ignoreCase) by {
        forall k | 0 <= k < |after|
          ensures exists a, b :: DuplicatePair(list, a, b, ignoreCase) && after[k] == list[b]
        {
          if k == |before| {
            assert DuplicatePair(list, i, j, ignoreCase) && after[k] == list[j];
          } else {
            assert after[k] == before[k];
          }
        }
      }
    }
    GrowingKeepsReported(before, after, list);
  }

  /** Reporting only grows, so what was reported stays reported. */
  lemma GrowingKeepsReported(before: seq<string>, after: seq<string>, list: seq<string>)
    requires |before| <= |after| && after[..|before|] == before
    ensures forall i, j :: 0 <= i < j < |list| && Reported(before, list, i, j) ==> Reported(after, list, i, j)
  {
    forall i, j | 0 <= i < j < |list| && Reported(before, list, i, j)
      ensures Reported(after, list, i, j)
    {
      if list[i] == list[j] {
        var k :| 0 <= k < |before| && before[k] == list[j];
        assert after[k] == list[j];
      } else {
        var k :| 0 <= k < |before| && EqualsIgnoreCase(before[k], list[j]);
        assert after[k] == before[k];
      }
    }
  }

  // ------------------------------------------------------------ CSV lists

  /** Each value with the enclosing text on both sides. */
  function Enclosed(list: seq<string>, enclose: string): (r: seq<string>)
    ensures |r| == |list|
  {
    seq(|list|, i requires 0 <= i < |list| => enclose + list[i] + enclose)
  }

  /** The text `stringArrayToCSV` builds: enclosed values separated by commas. */
  function CsvOf(list: seq<string>, enclose: string): string {
    if |list| == 0 then "" else Join(Enclosed(list, enclose), ',')
  }

  /**
   * `stringArrayToCSV` with its initial-capacity argument corrected: the
   * values, each enclosed, separated by commas, and `""` for an empty list.
   */
  method StringArrayToCsv(list: seq<string>, enclose: string) returns (r: string)
    ensures r == CsvOf(list, enclose)
    ensures |list| == 0 ==> r == ""
  {
    r := "";
    var idx := 0;
    while idx < |list|
      invariant 0 <= idx <= |list|
      invariant r == CsvOf(list[..idx], enclose)
    {
      if idx > 0 {
        r := r + ",";
      }
      r := r + (enclose + list[idx] + enclose);
      if idx > 0 {
        JoinSnoc(Enclosed(list[..idx], enclose), enclose + list[idx] + enclose, ',');
        assert Enclosed(list[..idx + 1], enclose) == Enclosed(list[..idx], enclose) + [enclose + list[idx] + enclose];
      }
      idx := idx + 1;
    }
    assert list[..idx] == list;
  }

  const NEGATIVE_ARRAY_SIZE: string := "java.lang.NegativeArraySizeException"

  /**
   * `stringArrayToCSV` as written: the `StringBuilder` is created with
   * capacity `list.length * 2 - 1`, computed in 32-bit `int` arithmetic. It
   * is negative for an empty array and, after wrap-around, for every array
   * longer than 2^30, and the builder then throws before any text is built.
   */
  function StringArrayToCsvAsWritten(list: seq<string>, enclose: string): (r: Result<string, string>)
    ensures r.Ok? ==> r.value == CsvOf(list, enclose)
  {
    if Wrap32(Wrap32(|list| * 2) - 1) < 0 then Err(NEGATIVE_ARRAY_SIZE) else Ok(CsvOf(list, enclose))
  }

  /**
   * The as-written code throws exactly for the empty array and for arrays
   * longer than 2^30 (a Java array holds at most `Integer.MAX_VALUE` items).
   */
  lemma CsvAsWrittenRefusesEmpty(list: seq<string>, enclose: string)
    requires |list| <= MAX_INT
    ensures StringArrayToCsvAsWritten(list, enclose).Err? <==> |list| == 0 || |list| > 0x4000_0000
    ensures StringArrayToCsvAsWritten([], enclose) == Err(NEGATIVE_ARRAY_SIZE)
  {
    var n := |list|;
    if n < 0x4000_0000 {
      assert Wrap32(n * 2) == n * 2;
    } else if n == 0x4000_0000 {
      WrapAbove(n * 2);
      WrapBelow(-0x8000_0000 - 1);
    } else {
      WrapAbove(n * 2);
    }
  }

  /**
   * Splitting the CSV text at commas gives back the enclosed values, when
   * neither the values nor the enclosing text hold a comma and the last
   * enclosed value is not empty (`split` drops trailing empty pieces).
   */
  lemma CsvSplitRoundTrip(list: seq<string>, enclose: string)
    requires |list| >= 1
    requires ',' !in enclose
    requires forall i :: 0 <= i < |list| ==> ',' !in list[i]
    requires |list| == 1 || enclose + list[|list| - 1] + enclose != ""
    ensures Split(CsvOf(list, enclose), ',') == Enclosed(list, enclose)
  {
    var ps := Enclosed(list, enclose);
    forall i | 0 <= i < |ps|
      ensures ',' !in ps[i]
    {
      assert ps[i] == enclose + list[i] + enclose;
    }
    SplitJoin(ps, ',');
  }

  /** With no enclosing text the CSV splits back into the list itself. */
  lemma CsvPlainRoundTrip(list: seq<string>)
    requires |list| >= 1
    requires forall i :: 0 <= i < |list| ==> ',' !in list[i]
    requires |list| == 1 || list[|list| - 1] != ""
    ensures Split(CsvOf(list, ""), ',') == list
  {
    CsvSplitRoundTrip(list, "");
    forall i | 0 <= i < |list|
      ensures Enclosed(list, "")[i] == list[i]
    {
      assert "" + list[i] + "" == list[i];
    }
    assert Enclosed(list, "") == list;
  }

  // ----------------------------------------------- export update-key columns

  /** The update-key text with the configured extra key columns appended. */
  function UpdateKeyText(updateKey: string, conf: Configuration): string {
    var extraKeys := GetOrDefault(conf, ORAOOP_UPDATE_KEY_EXTRA_COLUMNS, "");
    if extraKeys != "" then updateKey + "," + extraKeys else updateKey
  }

  /** One column name: trimmed, and upper-cased unless it is double-quoted. */
  function KeyColumnName(piece: string): string {
    var t := Trim(piece);
    if StartsWith(t, "\"") then t else ToUpper(t)
  }

  /** Each piece rewritten to its column name. */
  function KeyColumnNames(pieces: seq<string>): (r: seq<string>)
    ensures |r| == |pieces|
  {
    seq(|pieces|, i requires 0 <= i < |pieces| => KeyColumnName(pieces[i]))
  }

  /**
   * `getExtraExportUpdateKeyColumnNames`: no names without an update key;
   * otherwise the comma-separated pieces of the key (with any extra key
   * columns appended), each rewritten in place to its column name.
   */
  method GetExtraExportUpdateKeyColumnNames(updateKey: Option<string>, conf: Configuration)
    returns (names: seq<string>)
    ensures updateKey.None? ==> names == []
    ensures updateKey.Some? ==> names == KeyColumnNames(Split(UpdateKeyText(updateKey.value, conf), ','))
  {
    if updateKey.None? {
      return [];
    }
    var pieces := Split(UpdateKeyText(updateKey.value, conf), ',');
    var columnNames := new string[|pieces|](i requires 0 <= i < |pieces| => pieces[i]);
    assert columnNames[..] == pieces;
    RenameKeyColumns(columnNames);
    names := columnNames[..];
  }

  /** The loop of `getExtraExportUpdateKeyColumnNames` over the split array. */
  method RenameKeyColumns(columnNames: array<string>)
    modifies columnNames
    ensures columnNames[..] == KeyColumnNames(old(columnNames[..]))
  {
    ghost var pieces := columnNames[..];
    var idx := 0;
    while idx < columnNames.Length
      invariant 0 <= idx <= columnNames.Length
      invariant RenamedUpTo(columnNames[..], pieces, idx)
    {
      ghost var names := columnNames[..];
      var name := Trim(columnNames[idx]);
      if !StartsWith(name, "\"") {
        name := ToUpper(name);
      }
      assert name == KeyColumnName(pieces[idx]);
      columnNames[idx] := name;
      assert columnNames[..] == names[idx := name];
      RenamedStep(names, pieces, idx, name);
      idx := idx + 1;
    }
    RenamedAll(columnNames[..], pieces);
  }

  /** The first `n` names are rewritten and the rest are still the pieces. */
  ghost predicate RenamedUpTo(names: seq<string>, pieces: seq<string>, n: nat) {
    && |names| == |pieces| && n <= |pieces|
    && (forall i :: 0 <= i < n ==> names[i] == KeyColumnName(pieces[i]))
    && (forall i :: n <= i < |names| ==> names[i] == pieces[i])
  }

  lemma RenamedStep(names: seq<string>, pieces: seq<string>, n: nat, name: string)
    requires RenamedUpTo(names, pieces, n) && n < |pieces| && name == KeyColumnName(pieces[n])
    ensures RenamedUpTo(names[n := name], pieces, n + 1)
  {
  }

  lemma RenamedAll(names: seq<string>, pieces: seq<string>)
    requires RenamedUpTo(names, pieces, |pieces|)
    ensures names == KeyColumnNames(pieces)
  {
  }

  /** A column name has no blank at either end. */
  lemma KeyColumnNameTrimmed(piece: string)
    ensures IsTrim(KeyColumnName(piece))
  {
    ToUpperShape(Trim(piece), ',');
  }

  /** A column name holds a comma only if its piece did. */
  lemma KeyColumnNameNoComma(piece: string)
    requires ',' in KeyColumnName(piece)
    ensures ',' in piece
  {
    var t := Trim(piece);
    ToUpperShape(t, ',');
    assert ',' in t;
    TrimInside(piece, ',');
  }

  /** An unquoted column name holds no lower-case letter. */
  lemma KeyColumnNameUpper(piece: string)
    requires !StartsWith(Trim(piece), "\"")
    ensures forall i :: 0 <= i < |KeyColumnName(piece)| ==> !('a' <= KeyColumnName(piece)[i] <= 'z')
  {
    ToUpperShape(Trim(piece), ',');
  }

  /** A column name is its own column name: naming is idempotent. */
  lemma KeyColumnNameIdempotent(piece: string)
    ensures KeyColumnName(KeyColumnName(piece)) == KeyColumnName(piece)
  {
    var t := Trim(piece);
    var n := KeyColumnName(piece);
    KeyColumnNameTrimmed(piece);
    TrimOfTrimmed(n);
    if !StartsWith(t, "\"") {
      StartsWithChar(t, '"');
      StartsWithChar(n, '"');
      ToUpperIdempotent(t);
    }
  }

  /**
   * With a single-column key and a single extra column, neither holding a
   * comma and the extra column not empty, the result names exactly those
   * two columns, key first.
   */
  lemma ExtraColumnAppended(updateKey: string, conf: Configuration)
    requires ',' !in updateKey
    requires ORAOOP_UPDATE_KEY_EXTRA_COLUMNS in conf
    requires conf[ORAOOP_UPDATE_KEY_EXTRA_COLUMNS] != ""
    requires ',' !in conf[ORAOOP_UPDATE_KEY_EXTRA_COLUMNS]
    ensures Split(UpdateKeyText(updateKey, conf), ',') == [updateKey, conf[ORAOOP_UPDATE_KEY_EXTRA_COLUMNS]]
  {
    var extra := conf[ORAOOP_UPDATE_KEY_EXTRA_COLUMNS];
    assert Join([extra], ',') == extra;
    assert Join([updateKey, extra], ',') == updateKey + "," + extra;
    SplitJoin([updateKey, extra], ',');
  }

  /** Without extra columns a key without commas names one column. */
  lemma SingleKeyColumn(updateKey: string, conf: Configuration)
    requires ',' !in updateKey
    requires GetOrDefault(conf, ORAOOP_UPDATE_KEY_EXTRA_COLUMNS, "") == ""
    ensures Split(UpdateKeyText(updateKey, conf), ',') == [updateKey]
  {
  }
}
