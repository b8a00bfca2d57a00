/**
 * The row-processing parts of `OraOopOracleQueries`: the rows a catalog
 * query returns are given as a sequence, and the loops that turn them into
 * instances and partitions, the key-column join predicate and the
 * `dba_tables` filter are modelled; the JDBC calls themselves are not.
 */
module OracleQueries {
  import opened Wrappers
  import opened JavaStrings

  // ------------------------------------------------------ active instances

  /** One row of `v$active_instances`, split into host and instance. */
  datatype OracleActiveInstance = OracleActiveInstance(hostName: string, instanceName: string)

  const INST_NAME_NOT_TWO_VALUES: string :=
    "Parsing Error: The inst_name column of v$active_instances does not contain two values separated by a colon."
  const INST_NAME_NO_HOST: string :=
    "Parsing Error: The inst_name column of v$active_instances does not include a host name."
  const INST_NAME_NO_INSTANCE: string :=
    "Parsing Error: The inst_name column of v$active_instances does not include an instance name."

  /**
   * One `inst_name` value: exactly two `:`-separated fragments, each
   * trimmed and non-empty, or the `SQLException` message for the first
   * check that fails.
   */
  function ParseInstName(instName: string): Result<OracleActiveInstance, string> {
    InstanceOfFragments(Split(instName, ':'))
  }

  /** The checks on the `:`-separated fragments of one `inst_name`. */
  function InstanceOfFragments(nameFragments: seq<string>): Result<OracleActiveInstance, string> {
    if |nameFragments| != 2 then Err(INST_NAME_NOT_TWO_VALUES)
    else
      var hostName := Trim(nameFragments[0]);
      var instanceName := Trim(nameFragments[1]);
      if hostName == "" then Err(INST_NAME_NO_HOST)
      else if instanceName == "" then Err(INST_NAME_NO_INSTANCE)
      else Ok(OracleActiveInstance(hostName, instanceName))
  }

  /**
   * What a parsed instance guarantees: host and instance are non-empty,
   * trimmed and free of `:`; and a wrong number of fragments is the error
   * reported first.
   */
  lemma ParseInstNameAccepts(instName: string)
    ensures ParseInstName(instName) == Err(INST_NAME_NOT_TWO_VALUES) <==> |Split(instName, ':')| != 2
    ensures ParseInstName(instName).Ok? ==>
              var i := ParseInstName(instName).value;
              i.hostName != "" && i.instanceName != "" && IsTrim(i.hostName) && IsTrim(i.instanceName)
              && ':' !in i.hostName && ':' !in i.instanceName
  {
    var f := Split(instName, ':');
    FragmentsAccepted(f);
  }

  lemma FragmentsAccepted(f: seq<string>)
    requires forall i :: 0 <= i < |f| ==> ':' !in f[i]
    ensures InstanceOfFragments(f) == Err(INST_NAME_NOT_TWO_VALUES) <==> |f| != 2
    ensures InstanceOfFragments(f).Ok? ==>
              var i := InstanceOfFragments(f).value;
              i.hostName != "" && i.instanceName != "" && IsTrim(i.hostName) && IsTrim(i.instanceName)
              && ':' !in i.hostName && ':' !in i.instanceName
  {
    if |f| == 2 {
      MessagesDistinct();
      assert ':' !in f[0] && ':' !in f[1];
      TrimKeepsOut(f[0], ':');
      TrimKeepsOut(f[1], ':');
    }
  }

  /** The three parse errors are told apart by their text. */
  lemma MessagesDistinct()
    ensures INST_NAME_NOT_TWO_VALUES != INST_NAME_NO_HOST
    ensures INST_NAME_NOT_TWO_VALUES != INST_NAME_NO_INSTANCE
    ensures INST_NAME_NO_HOST != INST_NAME_NO_INSTANCE
  {
    assert |INST_NAME_NOT_TWO_VALUES| != |INST_NAME_NO_HOST|;
    assert |INST_NAME_NOT_TWO_VALUES| != |INST_NAME_NO_INSTANCE|;
    assert |INST_NAME_NO_HOST| != |INST_NAME_NO_INSTANCE|;
  }

  /** A host and an instance name written as `host:instance` parse back to themselves. */
  lemma InstNameRoundTrip(hostName: string, instanceName: string)
    requires hostName != "" && instanceName != "" && IsTrim(hostName) && IsTrim(instanceName)
    requires ':' !in hostName && ':' !in instanceName
    ensures ParseInstName(hostName + ":" + instanceName) == Ok(OracleActiveInstance(hostName, instanceName))
  {
    JoinCons(hostName, [instanceName], ':');
    assert hostName + ":" + instanceName == Join([hostName, instanceName], ':');
    SplitJoin([hostName, instanceName], ':');
    TrimOfTrimmed(hostName);
    TrimOfTrimmed(instanceName);
  }

  /** Each row's parse, in row order. */
  function ParsedInstNames(rows: seq<string>): seq<Result<OracleActiveInstance, string>> {
    Mapped(ParseInstName, rows)
  }

  function Mapped<A, B>(f: A -> B, xs: seq<A>): seq<B> {
    seq(|xs|, k requires 0 <= k < |xs| => f(xs[k]))
  }

  lemma MappedSnoc<A, B>(f: A -> B, xs: seq<A>, idx: nat)
    requires idx < |xs|
    ensures Mapped(f, xs[..idx + 1]) == Mapped(f, xs[..idx]) + [f(xs[idx])]
  {
    var a := Mapped(f, xs[..idx + 1]);
    var b := Mapped(f, xs[..idx]) + [f(xs[idx])];
    assert |a| == |b|;
    forall k | 0 <= k < |a| ensures a[k] == b[k] {
      assert xs[..idx + 1][k] == xs[k];
    }
  }

  lemma MappedSplit<A, B>(f: A -> B, xs: seq<A>, idx: nat)
    requires idx <= |xs|
    ensures Mapped(f, xs[..idx]) + Mapped(f, xs[idx..]) == Mapped(f, xs)
  {
    var head := Mapped(f, xs[..idx]);
    var tail := Mapped(f, xs[idx..]);
    forall k | 0 <= k < |xs| ensures (head + tail)[k] == Mapped(f, xs)[k] {
      if k < idx {
        assert xs[..idx][k] == xs[k];
      } else {
        assert xs[idx..][k - idx] == xs[k];
      }
    }
  }

  /**
   * `getOracleActiveInstances`: `null` (here `None`) for no rows, since the
   * list is only created for the first row; otherwise every row's instance,
   * or the first row's parse error.
   */
  function ActiveInstances(rows: seq<string>): Result<Option<seq<OracleActiveInstance>>, string> {
    if rows == [] then Ok(None)
    else
      match FirstError(ParsedInstNames(rows))
      case Ok(instances) => Ok(Some(instances))
      case Err(e) => Err(e)
  }

  method GetOracleActiveInstances(rows: seq<string>) returns (r: Result<Option<seq<OracleActiveInstance>>, string>)
    ensures r == ActiveInstances(rows)
  {
    var result: Option<seq<OracleActiveInstance>> := None;
    var idx := 0;
    while idx < |rows|
      invariant 0 <= idx <= |rows|
      invariant FirstError(ParsedInstNames(rows[..idx])).Ok?
      invariant result == if idx == 0 then None else Some(FirstError(ParsedInstNames(rows[..idx])).value)
    {
      var instance := ParseInstName(rows[idx]);
      MappedSnoc(ParseInstName, rows, idx);
      FirstErrorSnoc(ParsedInstNames(rows[..idx]), instance);
      if instance.Err? {
        InstancesFailFrom(rows, idx);
        return Err(instance.error);
      }
      if result.None? {
        result := Some([]);
      }
      result := Some(result.value + [instance.value]);
      idx := idx + 1;
    }
    assert rows[..idx] == rows;
    r := Ok(result);
  }

  /** A row that fails to parse decides the result of the whole query. */
  lemma InstancesFailFrom(rows: seq<string>, idx: nat)
    requires idx < |rows| && ParseInstName(rows[idx]).Err?
    requires FirstError(ParsedInstNames(rows[..idx])).Ok?
    ensures ActiveInstances(rows) == Err(ParseInstName(rows[idx]).error)
  {
    FailureDecides(ParseInstName, rows, idx);
  }

  /** In any list of parses, a failure after successes is the list's error. */
  lemma FailureDecides<A, T>(parse: A -> Result<T, string>, xs: seq<A>, idx: nat)
    requires idx < |xs| && parse(xs[idx]).Err?
    requires FirstError(Mapped(parse, xs[..idx])).Ok?
    ensures FirstError(Mapped(parse, xs)) == Err(parse(xs[idx]).error)
  {
    var head := Mapped(parse, xs[..idx + 1]);
    var tail := Mapped(parse, xs[idx + 1..]);
    MappedSnoc(parse, xs, idx);
    FirstErrorSnoc(Mapped(parse, xs[..idx]), parse(xs[idx]));
    FirstErrorSticks(head, tail);
    MappedSplit(parse, xs, idx + 1);
  }

  /** With rows and no parse error, one instance per row, in row order. */
  lemma ActiveInstancesEach(rows: seq<string>)
    requires ActiveInstances(rows).Ok? && rows != []
    ensures ActiveInstances(rows).value.Some?
    ensures var instances := ActiveInstances(rows).value.value;
            |instances| == |rows| && forall k :: 0 <= k < |rows| ==> ParseInstName(rows[k]) == Ok(instances[k])
  {
    var parsed := ParsedInstNames(rows);
    FirstErrorOk(parsed);
    assert forall k :: 0 <= k < |rows| ==> parsed[k] == ParseInstName(rows[k]);
  }

  /** A failed query reports the error of the first row that does not parse. */
  lemma ActiveInstancesFailure(rows: seq<string>)
    requires ActiveInstances(rows).Err?
    ensures exists k :: 0 <= k < |rows| && ParseInstName(rows[k]) == Err(ActiveInstances(rows).error)
                        && forall j :: 0 <= j < k ==> ParseInstName(rows[j]).Ok?
  {
    var parsed := ParsedInstNames(rows);
    FirstErrorErr(parsed);
    var k :| 0 <= k < |parsed| && parsed[k] == Err(FirstError(parsed).error)
             && forall j :: 0 <= j < k ==> parsed[j].Ok?;
    assert ParseInstName(rows[k]) == parsed[k];
    assert forall j :: 0 <= j < k ==> ParseInstName(rows[j]) == parsed[j];
  }

  // ------------------------------------------------------------ partitions

  /** One row of the partition query: a partition and, if any, one of its sub-partitions. */
  datatype PartitionRow = PartitionRow(partitionName: string, subPartitionName: Option<string>)

  datatype OracleTablePartition = OracleTablePartition(name: string, isSubPartition: bool)

  predicate HasSubPartition(row: PartitionRow) {
    row.subPartitionName.Some? && row.subPartitionName.value != ""
  }

  /** The entry a row stands for: its sub-partition if it has one, else its partition. */
  function RowPartition(row: PartitionRow): OracleTablePartition {
    if HasSubPartition(row) then OracleTablePartition(row.subPartitionName.value, true)
    else OracleTablePartition(row.partitionName, false)
  }

  /**
   * The previous entry already stands for this partition. Java compares the
   * names with reference `!=`; the model compares their text.
   */
  predicate SamePartition(partition: OracleTablePartition, partitionName: string) {
    !partition.isSubPartition && partition.name == partitionName
  }

  /** Whether a row adds an entry after the entry last added (`partition`). */
  predicate AddsEntry(partition: Option<OracleTablePartition>, row: PartitionRow) {
    HasSubPartition(row) || partition.None? || !SamePartition(partition.value, row.partitionName)
  }

  function LastPartition(ps: seq<OracleTablePartition>): Option<OracleTablePartition> {
    if ps == [] then None else Some(ps[|ps| - 1])
  }

  /** `getPartitions`: the entries the rows add, in row order. */
  function Partitions(rows: seq<PartitionRow>): seq<OracleTablePartition>
    decreases |rows|
  {
    if rows == [] then []
    else
      var done := Partitions(rows[..|rows| - 1]);
      var row := rows[|rows| - 1];
      if AddsEntry(LastPartition(done), row) then done + [RowPartition(row)] else done
  }

  method GetPartitions(rows: seq<PartitionRow>) returns (result: seq<OracleTablePartition>)
    ensures result == Partitions(rows)
  {
    result := [];
    var partition: Option<OracleTablePartition> := None;
    var idx := 0;
    while idx < |rows|
      invariant 0 <= idx <= |rows|
      invariant result == Partitions(rows[..idx])
      invariant partition == LastPartition(result)
    {
      var row := rows[idx];
      assert rows[..idx + 1][..idx] == rows[..idx];
      if row.subPartitionName.Some? && row.subPartitionName.value != "" {
        partition := Some(OracleTablePartition(row.subPartitionName.value, true));
        result := result + [partition.value];
      } else if partition.None? || partition.value.isSubPartition || partition.value.name != row.partitionName {
        partition := Some(OracleTablePartition(row.partitionName, false));
        result := result + [partition.value];
      }
      idx := idx + 1;
    }
    assert rows[..idx] == rows;
  }

  /** At most one entry per row. */
  lemma {:induction false} PartitionsAtMostOnePerRow(rows: seq<PartitionRow>)
    ensures |Partitions(rows)| <= |rows|
    decreases |rows|
  {
    if rows != [] {
      PartitionsAtMostOnePerRow(rows[..|rows| - 1]);
    }
  }

  /** Entries are only ever appended: the entries of the first rows start the list. */
  lemma {:induction false} PartitionsInRowOrder(rows: seq<PartitionRow>, i: nat)
    requires i <= |rows|
    ensures Partitions(rows[..i]) <= Partitions(rows)
    decreases |rows|
  {
    if i < |rows| {
      var init := rows[..|rows| - 1];
      assert init[..i] == rows[..i];
      PartitionsInRowOrder(init, i);
    } else {
      assert rows[..i] == rows;
    }
  }

  /** The last row is always represented by the last entry. */
  lemma PartitionsLast(rows: seq<PartitionRow>)
    requires rows != []
    ensures Partitions(rows) != [] && Partitions(rows)[|Partitions(rows)| - 1] == RowPartition(rows[|rows| - 1])
  {
  }

  /** The sub-partition names of a list of entries, in order. */
  function SubPartitionEntries(ps: seq<OracleTablePartition>): seq<string>
    decreases |ps|
  {
    if ps == [] then []
    else
      var init := SubPartitionEntries(ps[..|ps| - 1]);
      if ps[|ps| - 1].isSubPartition then init + [ps[|ps| - 1].name] else init
  }

  /** The non-empty sub-partition names of the rows, in order. */
  function RowSubPartitions(rows: seq<PartitionRow>): seq<string>
    decreases |rows|
  {
    if rows == [] then []
    else
      var init := RowSubPartitions(rows[..|rows| - 1]);
      var row := rows[|rows| - 1];
      if HasSubPartition(row) then init + [row.subPartitionName.value] else init
  }

  /** Every sub-partition row gives its own entry: none is merged or lost, and order is kept. */
  lemma {:induction false} SubPartitionsKept(rows: seq<PartitionRow>)
    ensures SubPartitionEntries(Partitions(rows)) == RowSubPartitions(rows)
    decreases |rows|
  {
    if rows != [] {
      var init := rows[..|rows| - 1];
      var row := rows[|rows| - 1];
      var done := Partitions(init);
      SubPartitionsKept(init);
      if AddsEntry(LastPartition(done), row) {
        var ps := done + [RowPartition(row)];
        assert ps[..|ps| - 1] == done;
      }
    }
  }

  /** Two neighbouring entries are never the same partition twice. */
  predicate NoRepeatedPartition(ps: seq<OracleTablePartition>) {
    forall k :: 0 < k < |ps| && !ps[k].isSubPartition ==> !SamePartition(ps[k - 1], ps[k].name)
  }

  lemma {:induction false} PartitionsNotRepeated(rows: seq<PartitionRow>)
    ensures NoRepeatedPartition(Partitions(rows))
    decreases |rows|
  {
    if rows != [] {
      var init := rows[..|rows| - 1];
      var row := rows[|rows| - 1];
      var done := Partitions(init);
      PartitionsNotRepeated(init);
      if AddsEntry(LastPartition(done), row) {
        var ps := done + [RowPartition(row)];
        forall k | 0 < k < |ps| && !ps[k].isSubPartition
          ensures !SamePartition(ps[k - 1], ps[k].name)
        {
          if k < |done| {
            assert ps[k] == done[k] && ps[k - 1] == done[k - 1];
          }
        }
      }
    }
  }

  // ------------------------------------------------ key-column predicates

  /** `String.format("%1$s.%3$s = %2$s.%3$s %4$s", prefix1, prefix2, column, operator)`. */
  function ColumnPredicate(prefix1: string, prefix2: string, joinColumnName: string, sqlJoinOperator: string): string {
    prefix1 + "." + joinColumnName + " = " + prefix2 + "." + joinColumnName + " " + sqlJoinOperator
  }

  /** The text the StringBuilder holds after the given columns. */
  function KeyColumnsFragment(joinColumnNames: seq<string>, prefix1: string, prefix2: string, sqlJoinOperator: string): string
    decreases |joinColumnNames|
  {
    if |joinColumnNames| == 0 then ""
    else
      var n := |joinColumnNames| - 1;
      var last := ColumnPredicate(prefix1, prefix2, joinColumnNames[n], sqlJoinOperator);
      if n == 0 then last
      else KeyColumnsFragment(joinColumnNames[..n], prefix1, prefix2, sqlJoinOperator) + " AND " + last
  }

  /** `generateUpdateKeyColumnsWhereClauseFragment`, four arguments. */
  method GenerateUpdateKeyColumnsWhereClauseFragment(joinColumnNames: seq<string>, prefix1: string, prefix2: string,
                                                      sqlJoinOperator: string)
    returns (result: string)
    ensures result == KeyColumnsFragment(joinColumnNames, prefix1, prefix2, sqlJoinOperator)
  {
    result := "";
    for idx := 0 to |joinColumnNames|
      invariant result == KeyColumnsFragment(joinColumnNames[..idx], prefix1, prefix2, sqlJoinOperator)
    {
      var joinColumnName := joinColumnNames[idx];
      assert joinColumnNames[..idx + 1][..idx] == joinColumnNames[..idx];
      if idx > 0 {
        result := result + " AND ";
      }
      result := result + ColumnPredicate(prefix1, prefix2, joinColumnName, sqlJoinOperator);
    }
    assert joinColumnNames[..|joinColumnNames|] == joinColumnNames;
  }

  /** `generateUpdateKeyColumnsWhereClauseFragment`, three arguments: no join operator. */
  method GenerateUpdateKeyColumnsWhereClauseFragmentPlain(joinColumnNames: seq<string>, prefix1: string, prefix2: string)
    returns (result: string)
    ensures result == KeyColumnsFragment(joinColumnNames, prefix1, prefix2, "")
  {
    result := GenerateUpdateKeyColumnsWhereClauseFragment(joinColumnNames, prefix1, prefix2, "");
  }

  /** Each column's predicate, in column order. */
  function ColumnPredicates(joinColumnNames: seq<string>, prefix1: string, prefix2: string, sqlJoinOperator: string): seq<string> {
    seq(|joinColumnNames|, k requires 0 <= k < |joinColumnNames| =>
      ColumnPredicate(prefix1, prefix2, joinColumnNames[k], sqlJoinOperator))
  }

  /** Pieces with ` AND ` between them, read from the front. */
  function AndJoin(ps: seq<string>): string
    decreases |ps|
  {
    if |ps| == 0 then "" else if |ps| == 1 then ps[0] else ps[0] + " AND " + AndJoin(ps[1..])
  }

  lemma {:induction false} AndJoinSnoc(ps: seq<string>, x: string)
    requires |ps| >= 1
    ensures AndJoin(ps + [x]) == AndJoin(ps) + " AND " + x
    decreases |ps|
  {
    var t := ps + [x];
    assert t[1..] == ps[1..] + [x];
    if |ps| > 1 {
      AndJoinSnoc(ps[1..], x);
      assert AndJoin(t) == ps[0] + " AND " + (AndJoin(ps[1..]) + " AND " + x);
    } else {
      assert t[1..] == [x];
    }
  }

  /**
   * The fragment is the columns' predicates joined by ` AND `: nothing for
   * no columns, and one `p1.col = p2.col op` per column, in order.
   */
  lemma {:induction false} KeyColumnsFragmentJoins(joinColumnNames: seq<string>, prefix1: string, prefix2: string,
                                                   sqlJoinOperator: string)
    ensures KeyColumnsFragment(joinColumnNames, prefix1, prefix2, sqlJoinOperator)
            == AndJoin(ColumnPredicates(joinColumnNames, prefix1, prefix2, sqlJoinOperator))
    decreases |joinColumnNames|
  {
    var ps := ColumnPredicates(joinColumnNames, prefix1, prefix2, sqlJoinOperator);
    var n := |joinColumnNames|;
    if n > 1 {
      var init := joinColumnNames[..n - 1];
      KeyColumnsFragmentJoins(init, prefix1, prefix2, sqlJoinOperator);
      var qs := ColumnPredicates(init, prefix1, prefix2, sqlJoinOperator);
      assert ps == qs + [ps[n - 1]];
      AndJoinSnoc(qs, ps[n - 1]);
    }
  }

  /** The fragment is empty exactly when there are no columns. */
  lemma KeyColumnsFragmentEmpty(joinColumnNames: seq<string>, prefix1: string, prefix2: string, sqlJoinOperator: string)
    ensures KeyColumnsFragment(joinColumnNames, prefix1, prefix2, sqlJoinOperator) == "" <==> joinColumnNames == []
  {
  }

  // ------------------------------------------------------------ getTables

  datatype TableNameQueryType = Equals | Like

  /** The SQL text and the values bound to its placeholders, position 1 first. */
  datatype TablesQuery = TablesQuery(sql: string, binds: seq<string>)

  /** Neither `null` nor empty. */
  predicate Given(s: Option<string>) {
    s.Some? && s.value != ""
  }

  function TableComparitor(tableNameQueryType: TableNameQueryType): string {
    match tableNameQueryType
    case Equals => "="
    case Like => "LIKE"
  }

  const OWNER_CONDITION: string := "owner = ?"

  function TableCondition(tableNameQueryType: TableNameQueryType): string {
    "table_name " + TableComparitor(tableNameQueryType) + " ?"
  }

  /** The four `%s` arguments of the `dba_tables` query. */
  function FilterArguments(owner: Option<string>, tableName: Option<string>, tableNameQueryType: TableNameQueryType): seq<string> {
    [if Given(owner) || Given(tableName) then "WHERE" else "",
     if Given(owner) then OWNER_CONDITION else "",
     if Given(owner) && Given(tableName) then "AND" else "",
     if Given(tableName) then TableCondition(tableNameQueryType) else ""]
  }

  /** The four arguments as formatted, with the spaces between them. */
  function FilterText(owner: Option<string>, tableName: Option<string>, tableNameQueryType: TableNameQueryType): string {
    var a := FilterArguments(owner, tableName, tableNameQueryType);
    a[0] + " " + a[1] + " " + a[2] + " " + a[3]
  }

  const TABLES_SELECT: string := "SELECT owner, table_name " + " FROM dba_tables"
  const TABLES_ORDER: string := " ORDER BY owner, table_name"

  /** The WHERE clause and bind composition of `getTables`. */
  function GetTablesQuery(owner: Option<string>, tableName: Option<string>, tableNameQueryType: TableNameQueryType): TablesQuery {
    var sql := TABLES_SELECT + " " + FilterText(owner, tableName, tableNameQueryType) + " " + TABLES_ORDER;
    var binds := (if Given(owner) then [owner.value] else []) + (if Given(tableName) then [tableName.value] else []);
    TablesQuery(sql, binds)
  }

  lemma SelectPlain()
    ensures Count('?', TABLES_SELECT) == 0
  {
    assert '?' !in TABLES_SELECT;
    CountAbsent('?', TABLES_SELECT);
  }

  lemma OrderPlain()
    ensures Count('?', TABLES_ORDER) == 0
  {
    assert '?' !in TABLES_ORDER;
    CountAbsent('?', TABLES_ORDER);
  }

  lemma SpacePlain()
    ensures Count('?', " ") == 0 && 'W' !in " "
  {
    CountAbsent('?', " ");
  }

  lemma OwnerConditionCount()
    ensures Count('?', OWNER_CONDITION) == 1 && 'W' !in OWNER_CONDITION
  {
    var head := "owner = ";
    assert OWNER_CONDITION == head + "?";
    assert '?' !in head;
    CountAbsent('?', head);
    CountConcat('?', head, "?");
  }

  lemma TableConditionCount(tableNameQueryType: TableNameQueryType)
    ensures Count('?', TableCondition(tableNameQueryType)) == 1 && 'W' !in TableCondition(tableNameQueryType)
  {
    var head := "table_name " + TableComparitor(tableNameQueryType) + " ";
    assert TableCondition(tableNameQueryType) == head + "?";
    assert '?' !in head && 'W' !in head;
    CountAbsent('?', head);
    CountConcat('?', head, "?");
  }

  /** Each placeholder of the filter has its bind, and each bind its placeholder. */
  lemma FilterPlaceholders(owner: Option<string>, tableName: Option<string>, tableNameQueryType: TableNameQueryType)
    ensures Count('?', FilterText(owner, tableName, tableNameQueryType))
            == |GetTablesQuery(owner, tableName, tableNameQueryType).binds|
  {
    var a := FilterArguments(owner, tableName, tableNameQueryType);
    SpacePlain();
    OwnerConditionCount();
    TableConditionCount(tableNameQueryType);
    CountAbsent('?', a[0]);
    CountAbsent('?', a[2]);
    assert Count('?', a[1]) == if Given(owner) then 1 else 0;
    assert Count('?', a[3]) == if Given(tableName) then 1 else 0;
    CountSpaced('?', a[0], a[1], a[2], a[3]);
  }

  /** A character count over four texts with spaces between them. */
  lemma CountSpaced(c: char, a0: string, a1: string, a2: string, a3: string)
    requires c != ' '
    ensures Count(c, a0 + " " + a1 + " " + a2 + " " + a3) == Count(c, a0) + Count(c, a1) + Count(c, a2) + Count(c, a3)
  {
    var space := " ";
    assert Count(c, space) == 0 by {
      assert space[..0] == [];
    }
    var s1 := a0 + space;
    var s2 := s1 + a1;
    var s3 := s2 + space;
    var s4 := s3 + a2;
    var s5 := s4 + space;
    CountConcat(c, a0, space);
    CountConcat(c, s1, a1);
    CountConcat(c, s2, space);
    CountConcat(c, s3, a2);
    CountConcat(c, s4, space);
    CountConcat(c, s5, a3);
  }

  /**
   * Every placeholder has a value bound and every bound value a
   * placeholder, the owner's at position 1 and the table's last.
   */
  lemma GetTablesBinds(owner: Option<string>, tableName: Option<string>, tableNameQueryType: TableNameQueryType)
    ensures var q := GetTablesQuery(owner, tableName, tableNameQueryType);
            Count('?', q.sql) == |q.binds|
            && (Given(owner) ==> q.binds[0] == owner.value)
            && (Given(tableName) ==> q.binds[|q.binds| - 1] == tableName.value)
  {
    var filter := FilterText(owner, tableName, tableNameQueryType);
    FilterPlaceholders(owner, tableName, tableNameQueryType);
    SelectPlain();
    OrderPlain();
    SpacePlain();
    var s1 := TABLES_SELECT + " ";
    var s2 := s1 + filter;
    var s3 := s2 + " ";
    CountConcat('?', TABLES_SELECT, " ");
    CountConcat('?', s1, filter);
    CountConcat('?', s2, " ");
    CountConcat('?', s3, TABLES_ORDER);
    assert GetTablesQuery(owner, tableName, tableNameQueryType).sql == s3 + TABLES_ORDER;
  }

  /** The filter says WHERE exactly when an owner or a table is given. */
  lemma GetTablesWhere(owner: Option<string>, tableName: Option<string>, tableNameQueryType: TableNameQueryType)
    ensures 'W' in FilterText(owner, tableName, tableNameQueryType) <==> Given(owner) || Given(tableName)
  {
    var a := FilterArguments(owner, tableName, tableNameQueryType);
    SpacePlain();
    OwnerConditionCount();
    TableConditionCount(tableNameQueryType);
    assert 'W' !in a[1] && 'W' !in a[2] && 'W' !in a[3];
    if Given(owner) || Given(tableName) {
      assert (a[0] + " " + a[1] + " " + a[2] + " " + a[3])[0] == 'W';
    }
  }

  /** With neither an owner nor a table, the query lists every table and binds nothing. */
  lemma GetTablesUnfiltered(owner: Option<string>, tableName: Option<string>, tableNameQueryType: TableNameQueryType)
    requires !Given(owner) && !Given(tableName)
    ensures GetTablesQuery(owner, tableName, tableNameQueryType) == TablesQuery(TABLES_SELECT + "     " + TABLES_ORDER, [])
  {
    assert FilterText(owner, tableName, tableNameQueryType) == "   ";
  }

  /** `AND` joins the two conditions exactly when both are given; both are then bound, owner first. */
  lemma GetTablesAnd(owner: Option<string>, tableName: Option<string>, tableNameQueryType: TableNameQueryType)
    ensures FilterArguments(owner, tableName, tableNameQueryType)[2] == "AND" <==> Given(owner) && Given(tableName)
    ensures Given(owner) && Given(tableName) ==>
              GetTablesQuery(owner, tableName, tableNameQueryType).binds == [owner.value, tableName.value]
  {
  }
}

