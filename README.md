# OraOop connector core, modelled in Dafny

This project models the core of the Quest Data Connector for Oracle and
Hadoop ("OraOop"). OraOop is a Sqoop plug-in that imports Oracle tables into
Hadoop and exports them back. The model covers the parts of the connector that
decide *what* work is done. The parts that talk to Oracle or Hadoop are left
out.

- **The split planner** (`SplitPlanner`). `getSplits` and
  `groupTableDataChunksIntoSplits` take the table's data chunks and plan the
  splits. Each split is numbered and carries the table's block total. The
  chunks are dealt out by the ROUNDROBIN, SEQUENTIAL or RANDOM method. Each
  split may then take a location hint from `oraoop.locations`.
- **Data chunks** (`DataChunks`). There are two kinds of chunk.
  - An extent chunk is a range of blocks in one data file. Its block count
    and its `rowid` WHERE clause are modelled.
  - A partition chunk is a whole partition or sub-partition. Its PARTITION
    clause is modelled.
  - Both kinds serialise to a Hadoop `DataOutput` and read back from a
    `DataInput`.
- **The JDBC URL parser** (`OracleJdbcUrls`). It splits a
  `jdbc:oracle:thin:@host:port:sid` or `…:@host:port/service` URL into host,
  port and SID or service, with one error per malformed piece. It also prints
  such a connection back as a URL.
- **String and configuration utilities** (`Utilities`):
  - decoding an Oracle table name, quoted or not;
  - data-chunk ids and per-mapper property names;
  - the `{name|default}` configuration-expression expander;
  - the enum-valued settings;
  - the CSV, index-of and duplicate helpers on string arrays;
  - the column names of an export's update key.
- **Session initialisation statements** (`ConnectionFactory`). The
  `;`-separated statement list is split and trimmed. Comments and empty
  pieces are dropped, and each statement is expanded.
- **Query row parsing** (`OracleQueries`). This covers the rows of
  `v$active_instances`, the partition list and the WHERE-clause fragment of
  the update key. It also covers the text and binds of the `dba_tables`
  query.
- **Small value types**: `OracleVersion` (`OracleVersions`) and
  `OracleTable` (`OracleTables`).
- **`OraOopLog`** (`Logging`), with its optional in-memory entry cache.
- **`OraOopGenerics`** (`Generics`): list randomisation and the growable
  object list.

Java `int` is modelled as `int32`, with wrap-around written out (`Wrap32`)
where the source's arithmetic can overflow. Java `String` semantics live in
`JavaStrings`:
- `split` drops trailing empty strings;
- `trim` removes every character up to U+0020;
- `Integer.parseInt` accepts an optional sign and only the `int` range.

A thrown exception becomes an `Err` value of a `Result`.

## Model

| member | source | states |
|---|---|---|
| SplitPlanner.RoundRobinStride | src/main/java/com/quest/oraoop/OraOopDataDrivenDBInputFormat.java:263-274 | ROUNDROBIN split `i` holds exactly the chunks at positions `i`, `i+k`, `i+2k`, …, in input order |
| SplitPlanner.RoundRobinConserves | src/main/java/com/quest/oraoop/OraOopDataDrivenDBInputFormat.java:263-274 | ROUNDROBIN hands out every chunk exactly once: the splits together are a permutation of the chunk list |
| SplitPlanner.StartLeast | src/main/java/com/quest/oraoop/OraOopDataDrivenDBInputFormat.java:277-291 | the SEQUENTIAL threshold test `allocated >= (n/k)*(idx+1)` holds exactly when the count has passed the start of the next run, the ceiling of `m*n/k` |
| SplitPlanner.SequentialOwner | src/main/java/com/quest/oraoop/OraOopDataDrivenDBInputFormat.java:276-293 | chunk `j` lands in SEQUENTIAL split `m` if and only if `m*n <= j*k < (m+1)*n` |
| SplitPlanner.SequentialConcatenates | src/main/java/com/quest/oraoop/OraOopDataDrivenDBInputFormat.java:276-293 | the SEQUENTIAL splits, one after another, are the chunk list itself: contiguous runs in order, nothing lost or repeated |
| SplitPlanner.SequentialNonEmpty | src/main/java/com/quest/oraoop/OraOopDataDrivenDBInputFormat.java:276-293 | with at least as many chunks as splits, every SEQUENTIAL split gets a chunk |
| SplitPlanner.SequentialBalanced | src/main/java/com/quest/oraoop/OraOopDataDrivenDBInputFormat.java:276-293 | each SEQUENTIAL split holds `n/k` chunks rounded down or up |
| SplitPlanner.SequentialWorkload241 | src/test/java/com/quest/oraoop/OraOopDataDrivenDBInputFormatTest.java:48-101 | 241 chunks in 32 SEQUENTIAL splits give each split 7 or 8 chunks, so the smallest has at least 75% of the largest |
| SplitPlanner.StartsAreBoundaries | src/main/java/com/quest/oraoop/OraOopDataDrivenDBInputFormat.java:276-293 | the run starts go from 0 to `n`, strictly increasing, each being the first count that reaches its threshold |
| SplitPlanner.BoundariesUnique | src/main/java/com/quest/oraoop/OraOopDataDrivenDBInputFormat.java:276-293 | those threshold conditions fix the run starts uniquely |
| SplitPlanner.TotalBlocks | src/main/java/com/quest/oraoop/OraOopDataDrivenDBInputFormat.java:231-233 | the block-total loop yields the 32-bit wrap of the exact sum of the chunks' block counts |
| SplitPlanner.AllocationConserves | src/main/java/com/quest/oraoop/OraOopDataDrivenDBInputFormat.java:254-295 | every allocation method (RANDOM after its shuffle, ROUNDROBIN, SEQUENTIAL) hands out each chunk exactly once |
| SplitPlanner.NewSplits | src/main/java/com/quest/oraoop/OraOopDataDrivenDBInputFormat.java:245-252 | `k` fresh, distinct, empty splits; split `i` is numbered `i` and carries the block total, with no location |
| SplitPlanner.Shuffle | src/main/java/com/quest/oraoop/OraOopDataDrivenDBInputFormat.java:256-261 | the caller's chunk list is left in the shuffled order |
| SplitPlanner.AddDataChunk | src/main/java/com/quest/oraoop/OraOopDataDrivenDBInputFormat.java:269-271 | the chunk is appended to exactly one split; every other split and all numbering are unchanged |
| SplitPlanner.DealRoundRobin | src/main/java/com/quest/oraoop/OraOopDataDrivenDBInputFormat.java:263-274 | after the loop, split `i` holds ROUNDROBIN list `i` and the numbering is kept |
| SplitPlanner.NextSplit | src/main/java/com/quest/oraoop/OraOopDataDrivenDBInputFormat.java:286-291 | the index step keeps the allocated count within the current split's run |
| SplitPlanner.DealSequential | src/main/java/com/quest/oraoop/OraOopDataDrivenDBInputFormat.java:276-293 | after the loop, split `m` holds SEQUENTIAL run `m` and the numbering is kept |
| SplitPlanner.GroupTableDataChunksIntoSplits | src/main/java/com/quest/oraoop/OraOopDataDrivenDBInputFormat.java:227-303 | `min(n, desired)` splits; a negative count fails creating the list; zero splits over a non-empty list fails on `get(0)`; otherwise the splits are fresh and distinct, numbered, carry the wrapped block total and hold the chosen allocation; only RANDOM reorders the caller's list |
| SplitPlanner.ChunksPerFileNotMultiple | src/main/java/com/quest/oraoop/OraOopDataDrivenDBInputFormat.java:65-67 | `2*desired+1` chunks per data file is odd, and with two or more mappers it is never a multiple of the mapper count |
| SplitPlanner.NoChunksMessagesDiffer | src/main/java/com/quest/oraoop/OraOopDataDrivenDBInputFormat.java:80-91 | the fatal no-chunks message tells the partition method from the rowid method |
| SplitPlanner.LocationHint | src/main/java/com/quest/oraoop/OraOopDataDrivenDBInputFormat.java:102-107 | a hint is a non-empty, trimmed entry of the comma-separated location list |
| SplitPlanner.NoLocationsNoHints | src/main/java/com/quest/oraoop/OraOopDataDrivenDBInputFormat.java:102-107 | with no `oraoop.locations` set, no split gets a hint |
| SplitPlanner.AssignLocations | src/main/java/com/quest/oraoop/OraOopDataDrivenDBInputFormat.java:102-115 | split `i` takes hint `i` when there is one and otherwise keeps its location; nothing else about any split changes |
| SplitPlanner.GetSplits | src/main/java/com/quest/oraoop/OraOopDataDrivenDBInputFormat.java:49-124 | no chunks is fatal, with the method-specific message; a mapper count below one fails in the planner; otherwise `min(n, mappers)` splits numbered `0..k-1`, each with its location hint, holding the chosen allocation, which is a permutation of the chunks |
| DataChunks.NumberOfBlocks | src/main/java/com/quest/oraoop/OraOopOracleDataChunkExtent.java:79-86 | an extent with start and finish both 0 has 0 blocks; otherwise `finish-start+1` in `int` arithmetic, at least 1 for an ordered range; a partition reports its stored count |
| DataChunks.WhereClause | src/main/java/com/quest/oraoop/OraOopOracleDataChunk.java:29-31 | a partition chunk's WHERE clause is the always-true `1=1` |
| DataChunks.SplitWhereClause | src/main/java/com/quest/oraoop/OraOopOracleDataChunkExtent.java:44-58 | the extent predicate splits at its commas into exactly the ten arguments of its two `rowid_create` calls |
| DataChunks.WhereClauseBounds | src/main/java/com/quest/oraoop/OraOopOracleDataChunkExtent.java:44-58 | the extent predicate can be read back to the object id, file number, first block and last block it bounds |
| DataChunks.PartitionClause | src/main/java/com/quest/oraoop/OraOopOracleDataChunk.java:33-35 | an extent chunk has no PARTITION clause |
| DataChunks.PartitionClauseNamesChunk | src/main/java/com/quest/oraoop/OraOopOracleDataChunkPartition.java:59-70 | a partition chunk's clause names it and says whether it is a sub-partition; an extent's clause names nothing |
| DataChunks.Encode | src/main/java/com/quest/oraoop/OraOopOracleDataChunkExtent.java:61-67 | the id is written first; an extent writes five fields, a partition three |
| DataChunks.Decode | src/main/java/com/quest/oraoop/OraOopOracleDataChunkExtent.java:70-76 | a decoded chunk is of the kind asked for and consumes input |
| DataChunks.DecodeEncode | src/main/java/com/quest/oraoop/OraOopOracleDataChunkPartition.java:46-57 | reading back what `write` produced gives the same chunk and leaves the rest of the stream untouched |
| DataChunks.Write | src/main/java/com/quest/oraoop/OraOopOracleDataChunkExtent.java:61-67 | the output stream grows by exactly the chunk's encoding |
| DataChunks.ReadFields | src/main/java/com/quest/oraoop/OraOopOracleDataChunkExtent.java:70-76 | reading succeeds exactly when the decoder does, with the decoder's chunk or error; success consumes exactly the decoded fields, failure leaves a suffix of the input unread |
| DataChunks.WriteThenRead | src/main/java/com/quest/oraoop/OraOopOracleDataChunkPartition.java:46-57 | a chunk written to a fresh stream and read back is the same chunk |
| OracleJdbcUrls.Create | src/main/java/com/quest/oraoop/OraOopJdbcUrl.java:31-40 | a null or empty connect string is refused with its own message; any other is kept as given |
| OracleJdbcUrls.ConnectionStringContainsProperties | src/main/java/com/quest/oraoop/OraOopJdbcUrl.java:185-188 | true exactly when the URL contains `?` |
| OracleJdbcUrls.CutParameters | src/main/java/com/quest/oraoop/OraOopJdbcUrl.java:79-82 | everything from the first `?` on is dropped; a URL without `?` is unchanged |
| OracleJdbcUrls.GetConnectionUrl | src/main/java/com/quest/oraoop/OraOopJdbcUrl.java:195-209 | a URL without properties comes back whole; otherwise the part before `?`, which exists whenever that part is non-empty |
| OracleJdbcUrls.StripHostPrefix | src/main/java/com/quest/oraoop/OraOopJdbcUrl.java:177 | the host is the fragment without its `@` and up to two following `/` |
| OracleJdbcUrls.ParseFragmentsAccepts | src/main/java/com/quest/oraoop/OraOopJdbcUrl.java:101-167 | a piece count other than 5 or 6 is refused with that count; an accepted URL reads `jdbc:oracle:thin:@…`, has a positive port, and has a SID for 6 pieces or a service for 5 |
| OracleJdbcUrls.ParseErrorsInOrder | src/main/java/com/quest/oraoop/OraOopJdbcUrl.java:101-167 | each error (not jdbc, not oracle, not thin, empty host, host without `@`, no port/service pair, empty port, port not a number, port not positive) is reported exactly when all earlier checks passed and its own failed; the parse succeeds exactly when all pass |
| OracleJdbcUrls.ParseSixFragments | src/main/java/com/quest/oraoop/OraOopJdbcUrl.java:136-140 | with six pieces the port is piece five parsed as an `int` and the SID is piece six |
| OracleJdbcUrls.ParametersIgnored | src/main/java/com/quest/oraoop/OraOopJdbcUrl.java:76-98 | appending `?parameters` to a URL does not change its fragments |
| OracleJdbcUrls.TrimFragments | src/main/java/com/quest/oraoop/OraOopJdbcUrl.java:97-98 | the loop trims every fragment in place |
| OracleJdbcUrls.SplitJdbcUrl | src/main/java/com/quest/oraoop/OraOopJdbcUrl.java:76-98 | the fragment array is the trimmed, parameter-free URL split at `:`, each piece trimmed |
| OracleJdbcUrls.CheckFragments | src/main/java/com/quest/oraoop/OraOopJdbcUrl.java:101-183 | the statement-by-statement checks with their early returns give exactly the parse `ParseFragments` specifies, on every fragment list |
| OracleJdbcUrls.ParseJdbcOracleThinConnectionString | src/main/java/com/quest/oraoop/OraOopJdbcUrl.java:42-183 | parsing a URL is the specification applied to its fragments |
| OracleJdbcUrls.ParseSidFragments | src/main/java/com/quest/oraoop/OraOopJdbcUrl.java:136-167 | a well-formed SID fragment list parses to that host, port and SID |
| OracleJdbcUrls.ParseServiceFragments | src/main/java/com/quest/oraoop/OraOopJdbcUrl.java:142-167 | a well-formed service fragment list parses to that host, port and service |
| OracleJdbcUrls.ToString | src/main/java/com/quest/oraoop/OraOopUtilities.java:675-693 | printing fails, with its message, exactly when neither SID nor service is given; otherwise it starts `jdbc:oracle:thin:@host:port` |
| OracleJdbcUrls.SidRoundTrip | src/main/java/com/quest/oraoop/OraOopUtilities.java:675-693 | a printed SID connection parses back to itself |
| OracleJdbcUrls.ServiceRoundTrip | src/main/java/com/quest/oraoop/OraOopUtilities.java:675-693 | a printed service connection parses back to itself |
| Utilities.ChunkMethodValueOf | src/main/java/com/quest/oraoop/OraOopUtilities.java:319-320 | a name maps to the chunk method with exactly that name, and to nothing otherwise |
| Utilities.AllocationMethodValueOf | src/main/java/com/quest/oraoop/OraOopUtilities.java:341-342 | a name maps to the allocation method with exactly that name |
| Utilities.LocationValueOf | src/main/java/com/quest/oraoop/OraOopUtilities.java:396-397 | a name maps to the WHERE-clause location with exactly that name |
| Utilities.JoinNames | src/main/java/com/quest/oraoop/OraOopUtilities.java:360-373 | the loop builds the ` or `-separated list of names |
| Utilities.ValidValueLists | src/main/java/com/quest/oraoop/OraOopUtilities.java:360-373 | the valid values are listed as "ROUNDROBIN or SEQUENTIAL or RANDOM" and "SUBSPLIT or SPLIT" |
| Utilities.GetDataChunkMethod | src/main/java/com/quest/oraoop/OraOopUtilities.java:308-327 | a null configuration fails; an absent setting gives ROWID; a valid name, once upper-cased and trimmed, gives that method; an invalid one gives ROWID and a warning |
| Utilities.GetBlockAllocationMethod | src/main/java/com/quest/oraoop/OraOopUtilities.java:329-358 | the same ladder for the allocation method, defaulting to the caller's default |
| Utilities.GetWhereClauseLocation | src/main/java/com/quest/oraoop/OraOopUtilities.java:384-413 | the same ladder for the WHERE-clause location |
| Utilities.InvalidMessagesQuoteValue | src/main/java/com/quest/oraoop/OraOopUtilities.java:347-353 | each invalid-value warning quotes the offending value |
| Utilities.ChunkMethodPartition | src/test/java/com/quest/oraoop/OraOopUtilitiesTest.java:225-256 | the setting `partition` selects the PARTITION chunk method |
| Utilities.NumberOfDataChunksPerOracleDataFile | src/main/java/com/quest/oraoop/OraOopUtilities.java:280-306 | `desired * multiplier + increment` in `int` arithmetic, with defaults 2 and 1, failing when a setting is not an integer |
| Utilities.DefaultChunksPerFile | src/main/java/com/quest/oraoop/OraOopUtilities.java:280-306 | with the defaults the count is `2*desired+1`, leaving remainder 1 |
| Utilities.GenerateDataChunkId | src/main/java/com/quest/oraoop/OraOopUtilities.java:214-217 | the id is the file id, `_`, then the batch number |
| Utilities.DataChunkIdRoundTrip | src/main/java/com/quest/oraoop/OraOopUtilities.java:214-217 | an id parses back to its file id and batch |
| Utilities.DataChunkIdInjective | src/main/java/com/quest/oraoop/OraOopUtilities.java:214-217 | different file/batch pairs give different ids |
| Utilities.DataChunkIdExamples | src/test/java/com/quest/oraoop/OraOopUtilitiesTest.java:121-137 | `(1, 1)` gives `1_1` and `(1234, 99)` gives `1234_99` |
| Utilities.MapperJdbcUrlPropertyName | src/main/java/com/quest/oraoop/OraOopUtilities.java:747-750 | the property name is the fixed prefix followed by the mapper id |
| Utilities.MapperJdbcUrlPropertyNameInjective | src/main/java/com/quest/oraoop/OraOopUtilities.java:747-750 | different mappers get different property names |
| Utilities.DecodeOracleTableName | src/main/java/com/quest/oraoop/OraOopUtilities.java:62-134 | a decoded table always has a schema and a name; failure carries the table-name message |
| Utilities.DecodeUnqualified | src/main/java/com/quest/oraoop/OraOopUtilities.java:62-134 | an unquoted name without a dot is upper-cased and owned by the upper-cased user |
| Utilities.DecodeDotted | src/main/java/com/quest/oraoop/OraOopUtilities.java:62-134 | `owner.name`, unquoted, is upper-cased in both parts |
| Utilities.DecodeTooManyDots | src/main/java/com/quest/oraoop/OraOopUtilities.java:62-134 | an unquoted name with two dots is refused |
| Utilities.DecodeQuotedName | src/main/java/com/quest/oraoop/OraOopUtilities.java:62-134 | a quoted name keeps its case and is owned by the upper-cased user |
| Utilities.DecodeQuotedNameWithSchema | src/main/java/com/quest/oraoop/OraOopUtilities.java:62-134 | `owner."Name"` upper-cases the owner only |
| Utilities.DecodeQuotedSchema | src/main/java/com/quest/oraoop/OraOopUtilities.java:62-134 | `"Owner".name` upper-cases the name only |
| Utilities.DecodeQuotedBoth | src/main/java/com/quest/oraoop/OraOopUtilities.java:62-134 | `"Owner"."Name"` keeps both exactly, dots inside quotes included |
| Utilities.DecodeToString | src/main/java/com/quest/oraoop/OraOopUtilities.java:62-134 | an upper-case qualified table decodes back from its `toString` |
| Utilities.DecodeOracleTableNameCached | src/main/java/com/quest/oraoop/OraOopUtilities.java:136-171 | a cached owner and name are returned as stored; otherwise the name is decoded, and on success both are stored in the configuration, which is untouched on failure |
| Utilities.ExpressionParts | src/main/java/com/quest/oraoop/OraOopUtilities.java:484-491 | an expression splits at its first `\|` into setting name and default, or is all name |
| Utilities.Resolve | src/main/java/com/quest/oraoop/OraOopUtilities.java:493-498 | a set configuration value wins; otherwise the default, or empty |
| Utilities.ReplaceConfigurationExpression | src/main/java/com/quest/oraoop/OraOopUtilities.java:469-510 | on every text whose expansion ends (`Expandable`): text without both braces is returned unchanged; a `}` before the first `{` fails as `substring` does |
| Utilities.ExpansionComplete | src/main/java/com/quest/oraoop/OraOopUtilities.java:469-510 | an expanded result no longer has both braces, and has no more closing braces than the input |
| Utilities.ReplaceRemovesBrace | src/main/java/com/quest/oraoop/OraOopUtilities.java:500-507 | each round removes a closing brace, so the recursion ends |
| Utilities.ReplaceUnfold | src/main/java/com/quest/oraoop/OraOopUtilities.java:500-507 | the result is the expansion of the text with its first expression replaced |
| Utilities.ReplaceNothing | src/main/java/com/quest/oraoop/OraOopUtilities.java:477-478 | text without `}` is left unchanged |
| Utilities.ExpandOne | src/test/java/com/quest/oraoop/OraOopUtilitiesTest.java:378-410 | a single `{name\|default}` is replaced by its resolved value and the rest is kept |
| Utilities.NoClosingBraceExpandable | src/main/java/com/quest/oraoop/OraOopUtilities.java:496-507 | when no configuration value holds a `}`, the expansion of every text ends |
| Utilities.ExpressionPartsOf | src/main/java/com/quest/oraoop/OraOopUtilities.java:484-491 | `name\|default` splits into that name and that default |
| Utilities.ExpandTwo | src/main/java/com/quest/oraoop/OraOopUtilities.java:469-510 | two different expressions in one text are each replaced by their own resolved value, the text around them kept |
| Utilities.StringArrayIndexOf | src/main/java/com/quest/oraoop/OraOopUtilities.java:589-598 | the first matching index, case-sensitively or not, or -1 exactly when nothing matches |
| Utilities.StringArrayContains | src/main/java/com/quest/oraoop/OraOopUtilities.java:584-587 | true exactly when some element matches |
| Utilities.GetDuplicatedStringArrayValues | src/main/java/com/quest/oraoop/OraOopUtilities.java:226-250 | a null list fails; otherwise the result is exactly what the pair-by-pair scan `Duplicates` reports, in its order |
| Utilities.DuplicatesReported | src/main/java/com/quest/oraoop/OraOopUtilities.java:226-250 | no value is reported twice, every reported value repeats an earlier element, and every repeated pair is reported (an exact repeat as it is, a case-only repeat in some spelling) |
| Utilities.DuplicatesMixedCase | src/test/java/com/quest/oraoop/OraOopUtilitiesTest.java:171-178 | `A, a, b, A` gives exactly `A` without `ignoreCase`, and exactly `a, A`, in that order, with it |
| Utilities.StringArrayToCsv | src/main/java/com/quest/oraoop/OraOopUtilities.java:600-616 | the enclosed values joined by commas, and "" for an empty array (corrected) |
| Utilities.StringArrayToCsvAsWritten | src/main/java/com/quest/oraoop/OraOopUtilities.java:605-616 | as written, with the capacity `list.length * 2 - 1` in 32-bit `int` arithmetic: when it returns, the result is the enclosed values joined by commas |
| Utilities.CsvAsWrittenRefusesEmpty | src/main/java/com/quest/oraoop/OraOopUtilities.java:607 | as written, for any Java array length, the method fails exactly on an empty array or one longer than 2^30, where the wrapped capacity is negative |
| Utilities.CsvSplitRoundTrip | src/main/java/com/quest/oraoop/OraOopUtilities.java:605-616 | splitting the CSV at commas gives back the enclosed values |
| Utilities.CsvPlainRoundTrip | src/main/java/com/quest/oraoop/OraOopUtilities.java:600-603 | with no enclosure, splitting the CSV gives back the array |
| Utilities.GetExtraExportUpdateKeyColumnNames | src/main/java/com/quest/oraoop/OraOopUtilities.java:1144-1163 | no update key gives no columns; otherwise the key, plus any extra columns, split at commas and normalised |
| Utilities.RenameKeyColumns | src/main/java/com/quest/oraoop/OraOopUtilities.java:1156-1161 | the loop normalises every column name in place |
| Utilities.KeyColumnNameTrimmed | src/main/java/com/quest/oraoop/OraOopUtilities.java:1157 | a normalised column name is trimmed |
| Utilities.KeyColumnNameUpper | src/main/java/com/quest/oraoop/OraOopUtilities.java:1158-1159 | an unquoted column name has no lower-case letter left |
| Utilities.KeyColumnNameIdempotent | src/main/java/com/quest/oraoop/OraOopUtilities.java:1156-1161 | normalising twice is normalising once |
| Utilities.ExtraColumnAppended | src/main/java/com/quest/oraoop/OraOopUtilities.java:1151-1155 | extra key columns are appended as one more piece |
| Utilities.SingleKeyColumn | src/main/java/com/quest/oraoop/OraOopUtilities.java:1151-1155 | with no extra columns, a single key stays a single piece |
| ConnectionFactory.ParseOraOopSessionInitializationStatements | src/main/java/com/quest/oraoop/OracleConnectionFactory.java:158-189 | a null configuration fails; otherwise, for statements whose expansion ends, the result is the session-statement specification |
| ConnectionFactory.ExpandStatements | src/main/java/com/quest/oraoop/OracleConnectionFactory.java:172-187 | the loop keeps the statements and expands them in order, stopping at the first expansion error |
| ConnectionFactory.KeptStatementsBound | src/main/java/com/quest/oraoop/OracleConnectionFactory.java:172-177 | no more statements are kept than there are pieces |
| ConnectionFactory.KeptStatementsShape | src/main/java/com/quest/oraoop/OracleConnectionFactory.java:174-177 | every kept statement is trimmed, non-empty and not a `--` comment |
| ConnectionFactory.KeptStatementsSound | src/main/java/com/quest/oraoop/OracleConnectionFactory.java:172-177 | every kept statement is some piece, trimmed |
| ConnectionFactory.KeptStatementsComplete | src/main/java/com/quest/oraoop/OracleConnectionFactory.java:172-177 | every piece that is a statement is kept, in its place in the order |
| ConnectionFactory.KeptStatementsAll | src/main/java/com/quest/oraoop/OracleConnectionFactory.java:172-177 | when every piece is a statement, all are kept, trimmed, in order |
| ConnectionFactory.KeptStatementsNone | src/main/java/com/quest/oraoop/OracleConnectionFactory.java:172-177 | when no piece is a statement, nothing is kept |
| ConnectionFactory.SemicolonOnly | src/main/java/com/quest/oraoop/OracleConnectionFactory.java:172-177 | the text `;` holds no statement |
| ConnectionFactory.NoStatementsWithoutProperty | src/main/java/com/quest/oraoop/OracleConnectionFactory.java:165-169 | an absent or empty setting gives no statements |
| ConnectionFactory.SessionStatementsEach | src/main/java/com/quest/oraoop/OracleConnectionFactory.java:172-187 | on success there is one result per kept statement, each its configuration expansion |
| ConnectionFactory.NoClosingBraceStatements | src/main/java/com/quest/oraoop/OracleConnectionFactory.java:172-187 | when no configuration value holds a `}`, every kept statement can be expanded |
| ConnectionFactory.TwoStatements | src/main/java/com/quest/oraoop/OracleConnectionFactory.java:172-177 | `a;b;` with two trimmed statements keeps exactly `a` and `b` |
| ConnectionFactory.SessionTwoStatements | src/main/java/com/quest/oraoop/OracleConnectionFactory.java:172-187 | two statements that expand give their two expansions, in order |
| ConnectionFactory.TwoStatementsThreeExpressions | src/main/java/com/quest/oraoop/OracleConnectionFactory.java:172-187 | `b1{e1};b2{e2}m{e3};` gives the first statement with its expression resolved and the second with both of its expressions resolved |
| ConnectionFactory.ExpressionsWithDefaults | src/test/java/com/quest/oraoop/ITOracleConnectionFactory.java:306-319 | `set c={expr3\|66};d={expr4\|15}/{expr5\|90};` with only `expr3` set to `20` gives exactly `set c=20` and `d=15/90` |
| ConnectionFactory.SessionStatementsFailure | src/main/java/com/quest/oraoop/OracleConnectionFactory.java:172-187 | a failure is the first kept statement whose expansion fails |
| OracleQueries.ParseInstNameAccepts | src/main/java/com/quest/oraoop/OraOopOracleQueries.java:542-554 | `inst_name` is refused as not two values exactly when it does not split into two at `:`; an accepted one has a non-empty, trimmed host and instance |
| OracleQueries.InstNameRoundTrip | src/main/java/com/quest/oraoop/OraOopOracleQueries.java:542-554 | `host:instance` parses back to that host and instance |
| OracleQueries.MessagesDistinct | src/main/java/com/quest/oraoop/OraOopOracleQueries.java:542-554 | the three parsing errors have distinct messages |
| OracleQueries.GetOracleActiveInstances | src/main/java/com/quest/oraoop/OraOopOracleQueries.java:532-566 | the row loop agrees with the active-instances specification |
| OracleQueries.ActiveInstancesEach | src/main/java/com/quest/oraoop/OraOopOracleQueries.java:540-563 | with rows and no error, there is one instance per row, each the row parsed |
| OracleQueries.ActiveInstancesFailure | src/main/java/com/quest/oraoop/OraOopOracleQueries.java:540-563 | an error is that of the first row that fails to parse |
| OracleQueries.GetPartitions | src/main/java/com/quest/oraoop/OraOopOracleQueries.java:40-90 | the row loop agrees with the partition-list specification |
| OracleQueries.PartitionsAtMostOnePerRow | src/main/java/com/quest/oraoop/OraOopOracleQueries.java:69-86 | each row adds at most one partition |
| OracleQueries.PartitionsInRowOrder | src/main/java/com/quest/oraoop/OraOopOracleQueries.java:69-86 | the list for a prefix of the rows is a prefix of the whole list |
| OracleQueries.PartitionsLast | src/main/java/com/quest/oraoop/OraOopOracleQueries.java:69-86 | the last row's partition is the last entry |
| OracleQueries.SubPartitionsKept | src/main/java/com/quest/oraoop/OraOopOracleQueries.java:73-77 | every row's sub-partition appears, in row order |
| OracleQueries.PartitionsNotRepeated | src/main/java/com/quest/oraoop/OraOopOracleQueries.java:78-85 | a whole-partition entry is added only when the row before named another partition, so no partition is listed twice in a row |
| OracleQueries.GenerateUpdateKeyColumnsWhereClauseFragment | src/main/java/com/quest/oraoop/OraOopOracleQueries.java:1246-1260 | the loop builds the key-column fragment specification |
| OracleQueries.GenerateUpdateKeyColumnsWhereClauseFragmentPlain | src/main/java/com/quest/oraoop/OraOopOracleQueries.java:1241-1244 | the three-argument form is the four-argument one with an empty operator |
| OracleQueries.KeyColumnsFragmentJoins | src/main/java/com/quest/oraoop/OraOopOracleQueries.java:1246-1260 | the fragment is one column comparison per key column, joined by ` AND ` |
| OracleQueries.KeyColumnsFragmentEmpty | src/main/java/com/quest/oraoop/OraOopOracleQueries.java:1246-1260 | the fragment is empty exactly when there are no key columns |
| OracleQueries.FilterPlaceholders | src/main/java/com/quest/oraoop/OraOopOracleQueries.java:301-347 | the filter text has one `?` per bound value |
| OracleQueries.GetTablesBinds | src/main/java/com/quest/oraoop/OraOopOracleQueries.java:301-347 | the query has one `?` per bind, the owner bound first and the table name last |
| OracleQueries.GetTablesWhere | src/main/java/com/quest/oraoop/OraOopOracleQueries.java:301-331 | a WHERE appears exactly when an owner or a table name is given |
| OracleQueries.GetTablesUnfiltered | src/main/java/com/quest/oraoop/OraOopOracleQueries.java:301-331 | with neither given, the query lists all tables with no binds |
| OracleQueries.GetTablesAnd | src/main/java/com/quest/oraoop/OraOopOracleQueries.java:301-347 | an AND joins the conditions exactly when both are given, binding owner then name |
| OracleVersions.IsGreaterThanOrEqualTo | src/main/java/com/quest/oraoop/OracleVersion.java:35-50 | the version compares lexicographically on major, minor, version, patch |
| OracleVersions.Reflexive | src/main/java/com/quest/oraoop/OracleVersion.java:35-50 | a version is at least itself |
| OracleVersions.MajorDecides | src/main/java/com/quest/oraoop/OracleVersion.java:35-50 | when the majors differ, the major alone decides |
| OracleVersions.Total | src/main/java/com/quest/oraoop/OracleVersion.java:35-50 | any two versions are comparable |
| OracleVersions.Antisymmetric | src/main/java/com/quest/oraoop/OracleVersion.java:35-50 | two versions each at least the other have equal numbers |
| OracleVersions.Transitive | src/main/java/com/quest/oraoop/OracleVersion.java:35-50 | the comparison is transitive |
| OracleTables.Unnamed | src/main/java/com/quest/oraoop/OracleTable.java:40-42 | the no-argument table has neither schema nor name |
| OracleTables.Qualified | src/main/java/com/quest/oraoop/OracleTable.java:44-48 | the two-argument table has that schema and name |
| OracleTables.Named | src/main/java/com/quest/oraoop/OracleTable.java:50-52 | the one-argument table has that name and no schema |
| OracleTables.ToString | src/main/java/com/quest/oraoop/OracleTable.java:55-59 | `schema.name`, or the name alone when the schema is null or empty |
| OracleTables.ToStringNamesSchema | src/main/java/com/quest/oraoop/OracleTable.java:55-59 | the schema is the text before the first dot |
| Logging.OraOopLog.constructor | src/main/java/com/quest/oraoop/OraOopLog.java:24-27 | a new log does not cache and has delegated nothing |
| Logging.OraOopLog.GetCacheLogEntries | src/main/java/com/quest/oraoop/OraOopLog.java:173-176 | true exactly when a cache exists |
| Logging.OraOopLog.GetLogEntries | src/main/java/com/quest/oraoop/OraOopLog.java:179-185 | the cached text, or empty with no cache |
| Logging.OraOopLog.SetCacheLogEntries | src/main/java/com/quest/oraoop/OraOopLog.java:188-194 | caching becomes the value asked for; switching on keeps an existing cache or starts an empty one; switching off drops the entries |
| Logging.OraOopLog.ClearCache | src/main/java/com/quest/oraoop/OraOopLog.java:197-201 | the entries are emptied and caching stays as it was |
| Logging.OraOopLog.CacheLogEntry | src/main/java/com/quest/oraoop/OraOopLog.java:203-211 | reports whether caching is on and then appends a non-null message to the cache |
| Logging.OraOopLog.Log | src/main/java/com/quest/oraoop/OraOopLog.java:29-170 | with caching on, the message is cached and not passed on; otherwise it is passed to the underlying log with its level |
| Logging.OraOopLog.TraceMessage | src/main/java/com/quest/oraoop/OraOopLog.java:139-143 | `trace(message)` always passes the message on and also caches it |
| Generics.SwapPermutes | src/main/java/com/quest/oraoop/OraOopGenerics.java:53-62 | one swap exchanges two entries and keeps the same multiset |
| Generics.PassPermutes | src/main/java/com/quest/oraoop/OraOopGenerics.java:53-62 | a pass of swaps is a permutation |
| Generics.RandomizedPermutes | src/main/java/com/quest/oraoop/OraOopGenerics.java:53-62 | randomising is a permutation of the list |
| Generics.PassIdentity | src/main/java/com/quest/oraoop/OraOopGenerics.java:53-62 | a pass whose draws are the identity leaves the list unchanged |
| Generics.SingletonUnchanged | src/main/java/com/quest/oraoop/OraOopGenerics.java:28-64 | a one-element list is unchanged |
| Generics.RandomizeList | src/main/java/com/quest/oraoop/OraOopGenerics.java:28-64 | a null list fails; an empty one is unchanged; otherwise the list becomes its randomisation, a permutation of the original |
| Generics.ShufflePass | src/main/java/com/quest/oraoop/OraOopGenerics.java:53-62 | one swap pass in place gives the pass specification |
| Generics.ObjectList.constructor | src/main/java/com/quest/oraoop/OraOopGenerics.java:71-74 | a new list is empty |
| Generics.ObjectList.Add | src/main/java/com/quest/oraoop/OraOopGenerics.java:76-79 | the item is appended; the size grows by one; the earlier items are unchanged |
| Generics.ObjectList.Size | src/main/java/com/quest/oraoop/OraOopGenerics.java:81-84 | the number of items held |
| Generics.ObjectList.Get | src/main/java/com/quest/oraoop/OraOopGenerics.java:86-89 | the item at a valid index, and nothing outside the range |

## Left out

- Every JDBC query, connection and `ResultSet` is left out. The query
  functions take the rows as parameters (`GetPartitions`,
  `GetOracleActiveInstances`). `getOracleDataChunksExtent` and
  `getOracleDataChunksPartition` are not part of this model: `GetSplits`
  takes the chunk list as a parameter.
- Reading the Hadoop job is left out. That covers the desired mapper count,
  the table identity, the partition list and the chosen methods, which
  `GetSplits` takes as parameters. A configuration is a `map` from names to
  values.
- Logging calls in the planner, the parser and the utilities are left out.
  They do not change results.
- `Collections.shuffle` and `java.util.Random` are left out. Their outcomes
  are parameters: `shuffled` for the planner, `draws` for
  `randomizeList`. Uniformity is not claimed.
- The SEQUENTIAL method's `double` threshold is compared exactly, as
  integer cross-multiplication. Floating-point rounding of
  `n / (double) k * (idx + 1)` is not modelled.
- `getPartitions` compares the partition name with the previous one, and
  `subPartitionName` with `""`, using `!=` on `String` references. Both
  are modelled as value equality.
- `OraOopDBInputSplit` is not part of this model. A new split is assumed to
  be numbered 0, with no blocks, no chunks and no location.
- The values of `OraOopConstants` are not part of this model. These are
  taken as given:
  - the extended rowid type is 1;
  - the maximum row number in a block is 32767;
  - the property names and defaults shown in the code.
- The byte layout of Hadoop `Text` and `DataOutput` is left out. A stream is
  a sequence of typed fields.
- Case folding covers ASCII letters only. Java's locale-dependent
  `toUpperCase` and `equalsIgnoreCase` are not modelled beyond that.
- Utilities.ReplaceConfigurationExpression requires `Expandable`: every
  value substituted, round after round, is free of `}`, so each round
  removes a `}` and the recursion ends. Java also returns on some texts
  outside this, where a substituted `}` is used up by later rounds, and
  overflows its stack on others (a value `{x}` for the name `x`). Neither
  case is modelled. `NoClosingBraceExpandable` shows that every text is
  `Expandable` when no configuration value holds a `}`.
- ConnectionFactory.ParseOraOopSessionInitializationStatements carries the
  same requirement for each kept statement (`StatementsExpandable`).
- DataChunks.DecodeWrongKind is a property of the model's typed field
  stream, not of Java. A Java `DataInput` has no field tags, so reading one
  variant's fields as the other's misreads the bytes rather than failing.
- DataChunks.ReadFields returns a fresh `Result`. Java's `readFields`
  assigns the fields one by one, so an `EOFException` part way through
  leaves a partly updated chunk behind. That partial state is not modelled.
- JavaStrings.ParseInt and Utilities.GetInt accept ASCII decimal digits
  only. Java's `Integer.parseInt` also accepts other Unicode digits, and
  Hadoop's `getInt` also reads `0x` hexadecimal values.
- The parser's "no SID or SERVICE" error (`OraOopJdbcUrl.java` lines 169-175)
  is not modelled because it is unreachable. A five-piece URL always yields a
  service and a six-piece one a SID.
- `getConnectionProperties`, `createProperties` and the reflective
  property lookup are left out. They call into the Oracle driver.
- The `isXxxEnabled` queries of `OraOopLog` and the delegate's own behaviour
  are left out. Passing an event on is recorded in `delegated`.
- OracleJdbcUrls.GetConnectionUrl returns `None` where Java would index an
  empty split result and throw. Its contract does not say exactly when that
  happens, only that a non-empty parameter-free prefix is always returned.
- OracleJdbcUrls.StripHostPrefix writes the regular expression
  `^[@][/]{0,2}` out as character tests.
- SplitPlanner.GetSplits does not restate the block total, the freshness or
  the distinctness of the splits. `GroupTableDataChunksIntoSplits` states
  these, and `GetSplits` passes its result through.
- OracleJdbcUrls.ToString states only the printed URL's prefix. The full text
  is fixed by `SidRoundTrip` and `ServiceRoundTrip`, which parse it back.
- OracleQueries.GetTablesBinds is not an exact characterisation of the
  `dba_tables` SQL text. It states the placeholder and bind structure.
  Copying the result rows into `OracleTable` values is left out.
- `createDBRecordReader`, the record readers, export-table creation and the
  other SQL-generating methods of `OraOopOracleQueries` are outside this
  model.

## Findings

| source | as written | input that shows it | evidently intended | confidence | as-written member | corrected member |
|---|---|---|---|---|---|---|
| src/main/java/com/quest/oraoop/OraOopUtilities.java:605-616 | the builder's capacity is `list.length * 2 - 1` | an empty array: the capacity is -1 and `new StringBuilder(-1)` throws `NegativeArraySizeException` (so does any array longer than 2^30, whose capacity wraps negative) | return the empty string for an empty array | not executed | Utilities.CsvAsWrittenRefusesEmpty | Utilities.StringArrayToCsv |
