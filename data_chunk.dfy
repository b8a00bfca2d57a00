/**
 * Oracle data chunks: the units of work the split planner distributes.
 * A chunk is either a rowid range of one extent of a data file, or a whole
 * (sub)partition. Each chunk knows how many Oracle blocks it covers, the
 * predicate that restricts a query to its rows, and how to write itself to,
 * and read itself back from, a Hadoop stream (here a stream of typed fields).
 */
module DataChunks {
  import opened Wrappers
  import opened JavaStrings

  /** `DBMS_ROWID.ROWID_EXTENDED`, the rowid type the extent predicate asks for. */
  const ROWID_EXTENDED_ROWID_TYPE: int32 := 1
  /** Highest row number a rowid inside one block can carry. */
  const ROWID_MAX_ROW_NUMBER_PER_BLOCK: int32 := 32767

  /**
   * The two chunk variants, sharing the `id` field of their common base.
   * The datatype constructors are the Java constructors: each stores its
   * arguments unchanged (the partition name becomes the id).
   */
  datatype Chunk =
    | Extent(id: string, oracleDataObjectId: int32, relativeDatafileNumber: int32,
             startBlockNumber: int32, finishBlockNumber: int32)
    | Partition(id: string, isSubPartition: bool, blocks: int32)

  // -------------------------------------------------------------- blocks

  /**
   * Number of Oracle blocks in a chunk. An extent whose start and finish
   * are both 0 counts none; otherwise it is `finish - start + 1` in `int`
   * arithmetic. A partition reports the block count it was built with.
   */
  function NumberOfBlocks(c: Chunk): (r: int32)
    ensures c.Partition? ==> r == c.blocks
    ensures c.Extent? && c.startBlockNumber == 0 && c.finishBlockNumber == 0 ==> r == 0
    ensures c.Extent? && !(c.startBlockNumber == 0 && c.finishBlockNumber == 0) ==>
              r == Wrap32(c.finishBlockNumber - c.startBlockNumber + 1)
    ensures c.Extent? && !(c.startBlockNumber == 0 && c.finishBlockNumber == 0)
            && c.startBlockNumber <= c.finishBlockNumber && c.finishBlockNumber - c.startBlockNumber < MAX_INT ==>
              1 <= r == c.finishBlockNumber - c.startBlockNumber + 1
  {
    match c
    case Extent(_, _, _, start, finish) =>
      if finish == 0 && start == 0 then 0 else Wrap32(finish - start + 1)
    case Partition(_, _, blocks) => blocks
  }

  // ---------------------------------------------------------- predicates

  /** `dbms_rowid.rowid_create(type, object, file, block, row)` as SQL text. */
  function RowidCreate(objectId: int32, fileNumber: int32, block: int32, row: int32): string {
    "dbms_rowid.rowid_create(" + IntToString(ROWID_EXTENDED_ROWID_TYPE) + ", " + IntToString(objectId)
      + ", " + IntToString(fileNumber) + ", " + IntToString(block) + ", " + IntToString(row) + ")"
  }

  /**
   * The WHERE predicate that selects the chunk's rows: for an extent, every
   * rowid from row 0 of the start block to the last possible row of the
   * finish block; for a partition, the base class's `1=1`.
   */
  function WhereClause(c: Chunk): (r: string)
    ensures c.Partition? ==> r == "1=1"
  {
    match c
    case Extent(_, objectId, fileNumber, start, finish) =>
      "(rowid >= " + RowidCreate(objectId, fileNumber, start, 0)
        + " AND rowid <= " + RowidCreate(objectId, fileNumber, finish, ROWID_MAX_ROW_NUMBER_PER_BLOCK) + ")"
    case Partition(_, _, _) => "1=1"
  }

  /**
   * Reads the object id, file number and block range back out of an extent
   * predicate: the comma-separated arguments 1, 2, 3 and 7.
   */
  function ExtentBounds(clause: string): Option<(int32, int32, int32, int32)> {
    BoundsOf(Split(clause, ','))
  }

  /** Arguments 1, 2, 3 and 7 of nine comma-separated pieces, as numbers. */
  function BoundsOf(pieces: seq<string>): Option<(int32, int32, int32, int32)> {
    if |pieces| != 9 then None
    else
      var objectId := ParseInt(Trim(pieces[1]));
      var fileNumber := ParseInt(Trim(pieces[2]));
      var start := ParseInt(Trim(pieces[3]));
      var finish := ParseInt(Trim(pieces[7]));
      if objectId.Some? && fileNumber.Some? && start.Some? && finish.Some?
      then Some((objectId.value, fileNumber.value, start.value, finish.value))
      else None
  }

  lemma TrimSpaceNumber(x: int32)
    ensures Trim(" " + IntToString(x)) == IntToString(x)
  {
    var s := IntToString(x);
    assert (" " + s)[1..] == s;
    assert !IsTrimmed(s[0]) && !IsTrimmed(s[|s| - 1]) by {
      assert IsDigit(s[0]) || s[0] == '-';
      assert IsDigit(s[|s| - 1]) || s[|s| - 1] == '-';
    }
    assert TrimStart(s) == s;
    assert TrimStart(" " + s) == s;
    assert TrimEnd(s) == s;
  }

  lemma NoCommaInNumber(x: int32)
    ensures ',' !in IntToString(x) && ',' !in " " + IntToString(x)
  {
    var s := IntToString(x);
    forall i | 0 <= i < |s| ensures s[i] != ',' {
      assert IsDigit(s[i]) || s[i] == '-';
    }
  }

  /** The comma-separated pieces of an extent predicate. */
  function ExtentPieces(c: Chunk): seq<string>
    requires c.Extent?
  {
    var one := IntToString(ROWID_EXTENDED_ROWID_TYPE);
    ["(rowid >= " + "dbms_rowid.rowid_create(" + one, " " + IntToString(c.oracleDataObjectId),
     " " + IntToString(c.relativeDatafileNumber), " " + IntToString(c.startBlockNumber),
     " " + IntToString(0) + ")" + " AND rowid <= " + "dbms_rowid.rowid_create(" + one,
     " " + IntToString(c.oracleDataObjectId), " " + IntToString(c.relativeDatafileNumber),
     " " + IntToString(c.finishBlockNumber), " " + IntToString(ROWID_MAX_ROW_NUMBER_PER_BLOCK) + ")" + ")"]
  }

  /** The comma-separated pieces of a `dbms_rowid.rowid_create` call. */
  function RowidPieces(objectId: int32, fileNumber: int32, block: int32, row: int32): seq<string> {
    ["dbms_rowid.rowid_create(" + IntToString(ROWID_EXTENDED_ROWID_TYPE), " " + IntToString(objectId),
     " " + IntToString(fileNumber), " " + IntToString(block), " " + IntToString(row) + ")"]
  }

  lemma JoinFive(p: seq<string>, d: char)
    requires |p| == 5
    ensures Join(p, d) == p[0] + [d] + p[1] + [d] + p[2] + [d] + p[3] + [d] + p[4]
  {
    assert Join(p[4..], d) == p[4];
    assert Join(p[3..], d) == p[3] + [d] + Join(p[4..], d) by { assert p[3..][1..] == p[4..]; }
    assert Join(p[2..], d) == p[2] + [d] + Join(p[3..], d) by { assert p[2..][1..] == p[3..]; }
    assert Join(p[1..], d) == p[1] + [d] + Join(p[2..], d) by { assert p[1..][1..] == p[2..]; }
  }

  lemma RowidCreateIsJoin(objectId: int32, fileNumber: int32, block: int32, row: int32)
    ensures RowidCreate(objectId, fileNumber, block, row) == Join(RowidPieces(objectId, fileNumber, block, row), ',')
  {
    JoinFive(RowidPieces(objectId, fileNumber, block, row), ',');
    CallShape("dbms_rowid.rowid_create(", IntToString(ROWID_EXTENDED_ROWID_TYPE), IntToString(objectId),
              IntToString(fileNumber), IntToString(block), IntToString(row));
  }

  lemma CallShape(call: string, one: string, o: string, f: string, b: string, r: string)
    ensures call + one + ", " + o + ", " + f + ", " + b + ", " + r + ")"
            == (call + one) + [','] + (" " + o) + [','] + (" " + f) + [','] + (" " + b) + [','] + (" " + r + ")")
  {
    assert ", " == [','] + " ";
  }

  /** Joining two lists glues the last piece of the first to the first piece of the second. */
  lemma {:induction false} JoinGlue(xs: seq<string>, x: string, y: string, ys: seq<string>, d: char)
    ensures Join(xs + [x], d) + Join([y] + ys, d) == Join(xs + [x + y] + ys, d)
    decreases |xs|
  {
    if xs == [] {
      assert xs + [x] == [x] && xs + [x + y] + ys == [x + y] + ys;
      if ys != [] {
        assert ([y] + ys)[1..] == ys && ([x + y] + ys)[1..] == ys;
      }
    } else {
      JoinGlue(xs[1..], x, y, ys, d);
      assert (xs + [x])[1..] == xs[1..] + [x];
      assert (xs + [x + y] + ys)[1..] == xs[1..] + [x + y] + ys;
    }
  }

  lemma WhereClauseIsJoin(c: Chunk)
    requires c.Extent?
    ensures Join(ExtentPieces(c), ',') == WhereClause(c)
  {
    var lo := RowidPieces(c.oracleDataObjectId, c.relativeDatafileNumber, c.startBlockNumber, 0);
    var hi := RowidPieces(c.oracleDataObjectId, c.relativeDatafileNumber, c.finishBlockNumber, ROWID_MAX_ROW_NUMBER_PER_BLOCK);
    RowidCreateIsJoin(c.oracleDataObjectId, c.relativeDatafileNumber, c.startBlockNumber, 0);
    RowidCreateIsJoin(c.oracleDataObjectId, c.relativeDatafileNumber, c.finishBlockNumber, ROWID_MAX_ROW_NUMBER_PER_BLOCK);
    var open, and, close := "(rowid >= ", " AND rowid <= ", ")";
    assert WhereClause(c) == open + Join(lo, ',') + and + Join(hi, ',') + close;
    GlueAll(open, lo, and, hi, close);
    PiecesMatch(c);
  }

  /** Text around and between two joined lists joins the glued pieces. */
  lemma GlueAll(open: string, lo: seq<string>, and: string, hi: seq<string>, close: string)
    requires |lo| == 5 && |hi| == 5
    ensures open + Join(lo, ',') + and + Join(hi, ',') + close
            == Join([open + lo[0], lo[1], lo[2], lo[3], lo[4] + and + hi[0], hi[1], hi[2], hi[3], hi[4] + close], ',')
  {
    var front := [open + lo[0]] + lo[1..4];
    var x := lo[4] + and;
    var middle := front + [x + hi[0]] + hi[1..4];
    GlueOpen(open, lo);
    GlueBack(front, lo[4], and);
    GlueMiddle(front, x, hi);
    GlueBack(middle, hi[4], close);
    GluedShape(open, lo, and, hi, close);
  }

  /** Text before a joined list of five glues to its first piece. */
  lemma GlueOpen(open: string, lo: seq<string>)
    requires |lo| == 5
    ensures open + Join(lo, ',') == Join([open + lo[0]] + lo[1..4] + [lo[4]], ',')
  {
    GlueFront(open, lo[0], lo[1..]);
    assert [lo[0]] + lo[1..] == lo;
    assert [open + lo[0]] + lo[1..] == [open + lo[0]] + lo[1..4] + [lo[4]];
  }

  /** A joined list of five glues its first piece to the last piece before it. */
  lemma GlueMiddle(front: seq<string>, x: string, hi: seq<string>)
    requires |hi| == 5
    ensures Join(front + [x], ',') + Join(hi, ',') == Join(front + [x + hi[0]] + hi[1..4] + [hi[4]], ',')
  {
    JoinGlue(front, x, hi[0], hi[1..], ',');
    assert [hi[0]] + hi[1..] == hi;
    assert front + [x + hi[0]] + hi[1..] == front + [x + hi[0]] + hi[1..4] + [hi[4]];
  }

  /** The glued pieces, listed one by one. */
  lemma GluedShape(open: string, lo: seq<string>, and: string, hi: seq<string>, close: string)
    requires |lo| == 5 && |hi| == 5
    ensures [open + lo[0]] + lo[1..4] + [lo[4] + and + hi[0]] + hi[1..4] + [hi[4] + close]
            == [open + lo[0], lo[1], lo[2], lo[3], lo[4] + and + hi[0], hi[1], hi[2], hi[3], hi[4] + close]
  {
  }

  lemma GlueFront(x: string, y: string, ys: seq<string>)
    ensures x + Join([y] + ys, ',') == Join([x + y] + ys, ',')
  {
    JoinGlue([], x, y, ys, ',');
    assert [] + [x] == [x] && [] + [x + y] + ys == [x + y] + ys;
  }

  lemma GlueBack(xs: seq<string>, x: string, y: string)
    ensures Join(xs + [x], ',') + y == Join(xs + [x + y], ',')
  {
    JoinGlue(xs, x, y, [], ',');
    assert [y] + [] == [y] && xs + [x + y] + [] == xs + [x + y];
  }

  lemma PiecesMatch(c: Chunk)
    requires c.Extent?
    ensures var lo := RowidPieces(c.oracleDataObjectId, c.relativeDatafileNumber, c.startBlockNumber, 0);
            var hi := RowidPieces(c.oracleDataObjectId, c.relativeDatafileNumber, c.finishBlockNumber, ROWID_MAX_ROW_NUMBER_PER_BLOCK);
            [("(rowid >= " + lo[0]), lo[1], lo[2], lo[3], lo[4] + " AND rowid <= " + hi[0], hi[1], hi[2], hi[3], hi[4] + ")"]
            == ExtentPieces(c)
  {
    var one := IntToString(ROWID_EXTENDED_ROWID_TYPE);
    var call, and := "dbms_rowid.rowid_create(", " AND rowid <= ";
    var zero, max := IntToString(0), IntToString(ROWID_MAX_ROW_NUMBER_PER_BLOCK);
    assert "(rowid >= " + (call + one) == "(rowid >= " + call + one;
    assert (" " + zero + ")") + and + (call + one) == " " + zero + ")" + and + call + one;
    assert (" " + max + ")") + ")" == " " + max + ")" + ")";
  }

  /** No piece of an extent predicate holds a comma. */
  lemma ExtentPiecesNoComma(c: Chunk)
    requires c.Extent?
    ensures forall i :: 0 <= i < |ExtentPieces(c)| ==> ',' !in ExtentPieces(c)[i]
  {
    var one := IntToString(ROWID_EXTENDED_ROWID_TYPE);
    var zero := IntToString(0);
    var max := IntToString(ROWID_MAX_ROW_NUMBER_PER_BLOCK);
    NoCommaInNumber(ROWID_EXTENDED_ROWID_TYPE);
    NoCommaInNumber(0);
    NoCommaInNumber(ROWID_MAX_ROW_NUMBER_PER_BLOCK);
    SpacedNoComma(c.oracleDataObjectId);
    SpacedNoComma(c.relativeDatafileNumber);
    SpacedNoComma(c.startBlockNumber);
    SpacedNoComma(c.finishBlockNumber);
    var open, call, and := "(rowid >= ", "dbms_rowid.rowid_create(", " AND rowid <= ";
    LiteralsNoComma();
    NoCommaIn(open, call);
    NoCommaIn(open + call, one);
    NoCommaIn(" ", zero);
    NoCommaIn(" " + zero, ")");
    NoCommaIn(" " + zero + ")", and);
    NoCommaIn(" " + zero + ")" + and, call);
    NoCommaIn(" " + zero + ")" + and + call, one);
    NoCommaIn(" ", max);
    NoCommaIn(" " + max, ")");
    NoCommaIn(" " + max + ")", ")");
    var p := ExtentPieces(c);
    assert p[0] == open + call + one;
    assert p[4] == " " + zero + ")" + and + call + one;
    assert p[8] == " " + max + ")" + ")";
  }

  /** The fixed text of an extent predicate holds no comma. */
  lemma LiteralsNoComma()
    ensures ',' !in "(rowid >= " && ',' !in "dbms_rowid.rowid_create("
    ensures ',' !in " AND rowid <= " && ',' !in ")" && ',' !in " "
  {
  }

  /** A space and a number hold no comma. */
  lemma SpacedNoComma(x: int32)
    ensures ',' !in " " + IntToString(x)
  {
    NoCommaInNumber(x);
    NoCommaIn(" ", IntToString(x));
  }

  /** Text made of two comma-free parts is comma-free. */
  lemma NoCommaIn(a: string, b: string)
    requires ',' !in a && ',' !in b
    ensures ',' !in a + b
  {
  }

  /** The comma-separated pieces of an extent predicate are exactly its arguments' text. */
  lemma SplitWhereClause(c: Chunk)
    requires c.Extent?
    ensures Split(WhereClause(c), ',') == ExtentPieces(c)
  {
    var pieces := ExtentPieces(c);
    ExtentPiecesNoComma(c);
    WhereClauseIsJoin(c);
    SplitJoin(pieces, ',');
  }

  /** A space and a number parse back to that number. */
  lemma ParseSpacedNumber(x: int32)
    ensures ParseInt(Trim(" " + IntToString(x))) == Some(x)
  {
    TrimSpaceNumber(x);
    ParseIntToString(x);
  }

  /**
   * An extent predicate determines the extent's object, file and block
   * range: distinct extents never select through the same predicate text.
   */
  lemma WhereClauseBounds(c: Chunk)
    requires c.Extent?
    ensures ExtentBounds(WhereClause(c))
            == Some((c.oracleDataObjectId, c.relativeDatafileNumber, c.startBlockNumber, c.finishBlockNumber))
  {
    SplitWhereClause(c);
    ExtentPiecesParse(c);
  }

  /** The numeric arguments of an extent predicate parse back to the extent's fields. */
  lemma ExtentPiecesParse(c: Chunk)
    requires c.Extent?
    ensures BoundsOf(ExtentPieces(c))
            == Some((c.oracleDataObjectId, c.relativeDatafileNumber, c.startBlockNumber, c.finishBlockNumber))
  {
    var pieces := ExtentPieces(c);
    assert |pieces| == 9;
    assert pieces[1] == " " + IntToString(c.oracleDataObjectId);
    assert pieces[2] == " " + IntToString(c.relativeDatafileNumber);
    assert pieces[3] == " " + IntToString(c.startBlockNumber);
    assert pieces[7] == " " + IntToString(c.finishBlockNumber);
    ParseSpacedNumber(c.oracleDataObjectId);
    ParseSpacedNumber(c.relativeDatafileNumber);
    ParseSpacedNumber(c.startBlockNumber);
    ParseSpacedNumber(c.finishBlockNumber);
  }

  const SUBPARTITION_PREFIX: string := " SUBPARTITION(\""
  const PARTITION_PREFIX: string := " PARTITION(\""
  const CLAUSE_SUFFIX: string := "\")"

  /**
   * The partition qualifier appended to the table name: for a partition
   * chunk a leading space, the keyword and the id in double quotes (not
   * escaped); for an extent, the base class's empty string.
   */
  function PartitionClause(c: Chunk): (r: string)
    ensures c.Extent? ==> r == ""
  {
    match c
    case Extent(_, _, _, _, _) => ""
    case Partition(id, isSubPartition, _) =>
      " " + (if isSubPartition then "SUBPARTITION" else "PARTITION") + "(\"" + id + "\")"
  }

  /** Reads the sub-partition flag and the name back out of a partition qualifier. */
  function ParsePartitionClause(s: string): Option<(bool, string)> {
    if StartsWith(s, SUBPARTITION_PREFIX) && |s| >= |SUBPARTITION_PREFIX| + |CLAUSE_SUFFIX| && EndsWith(s, CLAUSE_SUFFIX)
    then Some((true, s[|SUBPARTITION_PREFIX|..|s| - |CLAUSE_SUFFIX|]))
    else if StartsWith(s, PARTITION_PREFIX) && |s| >= |PARTITION_PREFIX| + |CLAUSE_SUFFIX| && EndsWith(s, CLAUSE_SUFFIX)
    then Some((false, s[|PARTITION_PREFIX|..|s| - |CLAUSE_SUFFIX|]))
    else None
  }

  /**
   * The qualifier of a partition chunk names exactly that partition and
   * tells a sub-partition from a partition, whatever characters the name
   * holds; an extent adds no qualifier.
   */
  lemma PartitionClauseNamesChunk(c: Chunk)
    ensures c.Partition? ==> ParsePartitionClause(PartitionClause(c)) == Some((c.isSubPartition, c.id))
    ensures c.Extent? ==> ParsePartitionClause(PartitionClause(c)) == None
  {
    if c.Partition? {
      var s := PartitionClause(c);
      if c.isSubPartition {
        assert s == SUBPARTITION_PREFIX + c.id + CLAUSE_SUFFIX;
        assert s[|SUBPARTITION_PREFIX|..|s| - |CLAUSE_SUFFIX|] == c.id;
      } else {
        assert s == PARTITION_PREFIX + c.id + CLAUSE_SUFFIX;
        assert s[1] == 'P';
        assert !StartsWith(s, SUBPARTITION_PREFIX) by { assert SUBPARTITION_PREFIX[1] == 'S'; }
        assert s[|PARTITION_PREFIX|..|s| - |CLAUSE_SUFFIX|] == c.id;
      }
    }
  }

  // ------------------------------------------------------- serialisation

  /** One value written to, or read from, a Hadoop `DataOutput`/`DataInput`. */
  datatype Field = StringField(s: string) | BoolField(b: bool) | IntField(i: int32)

  /** Which variant the reader was instantiated as before `readFields`. */
  datatype ChunkKind = ExtentKind | PartitionKind

  function KindOf(c: Chunk): ChunkKind {
    if c.Extent? then ExtentKind else PartitionKind
  }

  /** Why a read failed: the stream ended, or held a value of another type. */
  datatype ReadError = EndOfStream | UnexpectedField(found: Field)

  /** The fields `write` emits: the id, then the variant's own fields in declaration order. */
  function Encode(c: Chunk): (r: seq<Field>)
    ensures |r| >= 1 && r[0] == StringField(c.id)
    ensures c.Extent? ==> |r| == 5
    ensures c.Partition? ==> |r| == 3
  {
    match c
    case Extent(id, objectId, fileNumber, start, finish) =>
      [StringField(id), IntField(objectId), IntField(fileNumber), IntField(start), IntField(finish)]
    case Partition(id, isSubPartition, blocks) =>
      [StringField(id), BoolField(isSubPartition), IntField(blocks)]
  }

  function TakeString(input: seq<Field>): (r: Result<(string, seq<Field>), ReadError>)
    ensures r.Ok? ==> |input| >= 1 && r.value.1 == input[1..]
  {
    if |input| == 0 then Err(EndOfStream)
    else if input[0].StringField? then Ok((input[0].s, input[1..]))
    else Err(UnexpectedField(input[0]))
  }

  function TakeBool(input: seq<Field>): (r: Result<(bool, seq<Field>), ReadError>)
    ensures r.Ok? ==> |input| >= 1 && r.value.1 == input[1..]
  {
    if |input| == 0 then Err(EndOfStream)
    else if input[0].BoolField? then Ok((input[0].b, input[1..]))
    else Err(UnexpectedField(input[0]))
  }

  function TakeInt(input: seq<Field>): (r: Result<(int32, seq<Field>), ReadError>)
    ensures r.Ok? ==> |input| >= 1 && r.value.1 == input[1..]
  {
    if |input| == 0 then Err(EndOfStream)
    else if input[0].IntField? then Ok((input[0].i, input[1..]))
    else Err(UnexpectedField(input[0]))
  }

  function DecodeExtent(input: seq<Field>): (r: Result<(Chunk, seq<Field>), ReadError>)
    ensures r.Ok? ==> r.value.0.Extent? && |input| >= 5 && r.value.1 == input[5..]
  {
    var id := TakeString(input);
    if id.Err? then Err(id.error) else
    var objectId := TakeInt(id.value.1);
    if objectId.Err? then Err(objectId.error) else
    var fileNumber := TakeInt(objectId.value.1);
    if fileNumber.Err? then Err(fileNumber.error) else
    var start := TakeInt(fileNumber.value.1);
    if start.Err? then Err(start.error) else
    var finish := TakeInt(start.value.1);
    if finish.Err? then Err(finish.error) else
    Ok((Extent(id.value.0, objectId.value.0, fileNumber.value.0, start.value.0, finish.value.0), finish.value.1))
  }

  function DecodePartition(input: seq<Field>): (r: Result<(Chunk, seq<Field>), ReadError>)
    ensures r.Ok? ==> r.value.0.Partition? && |input| >= 3 && r.value.1 == input[3..]
  {
    var id := TakeString(input);
    if id.Err? then Err(id.error) else
    var isSubPartition := TakeBool(id.value.1);
    if isSubPartition.Err? then Err(isSubPartition.error) else
    var blocks := TakeInt(isSubPartition.value.1);
    if blocks.Err? then Err(blocks.error) else
    Ok((Partition(id.value.0, isSubPartition.value.0, blocks.value.0), blocks.value.1))
  }

  /** What `readFields` leaves behind: the chunk read and the unread rest of the stream. */
  function Decode(kind: ChunkKind, input: seq<Field>): (r: Result<(Chunk, seq<Field>), ReadError>)
    ensures r.Ok? ==> KindOf(r.value.0) == kind
    ensures r.Ok? ==> |r.value.1| < |input|
  {
    match kind
    case ExtentKind => DecodeExtent(input)
    case PartitionKind => DecodePartition(input)
  }

  /** `readFields` after `write` restores every field and consumes exactly what was written. */
  lemma DecodeEncode(c: Chunk, rest: seq<Field>)
    ensures Decode(KindOf(c), Encode(c) + rest) == Ok((c, rest))
  {
    var s := Encode(c) + rest;
    if c.Extent? {
      assert s[1..][1..][1..][1..][1..] == rest;
    } else {
      assert TakeString(s) == Ok((c.id, s[1..]));
      assert TakeBool(s[1..]) == Ok((c.isSubPartition, s[1..][1..]));
      assert TakeInt(s[1..][1..]) == Ok((c.blocks, s[1..][1..][1..]));
      assert s[1..][1..][1..] == rest;
    }
  }

  /** A reader of the wrong variant never succeeds on what `write` emitted. */
  lemma DecodeWrongKind(c: Chunk, rest: seq<Field>)
    ensures Decode(if c.Extent? then PartitionKind else ExtentKind, Encode(c) + rest).Err?
  {
    var s := Encode(c) + rest;
    assert s[1..][0] == Encode(c)[1];
  }

  /** The `DataOutput` a chunk is written to. */
  class FieldOutput {
    var written: seq<Field>

    constructor ()
      ensures written == []
    {
      written := [];
    }

    method WriteString(s: string)
      modifies this
      ensures written == old(written) + [StringField(s)]
    {
      written := written + [StringField(s)];
    }

    method WriteBoolean(b: bool)
      modifies this
      ensures written == old(written) + [BoolField(b)]
    {
      written := written + [BoolField(b)];
    }

    method WriteInt(i: int32)
      modifies this
      ensures written == old(written) + [IntField(i)]
    {
      written := written + [IntField(i)];
    }
  }

  /** The `DataInput` a chunk is read from; `remaining` is what has not been consumed. */
  class FieldInput {
    var remaining: seq<Field>

    constructor (fields: seq<Field>)
      ensures remaining == fields
    {
      remaining := fields;
    }

    method ReadString() returns (r: Result<string, ReadError>)
      modifies this
      ensures TakeString(old(remaining)).Ok? <==> r.Ok?
      ensures r.Ok? ==> (r.value, remaining) == TakeString(old(remaining)).value
      ensures r.Err? ==> r.error == TakeString(old(remaining)).error
      ensures r.Err? ==> remaining == old(remaining)
    {
      if |remaining| == 0 {
        return Err(EndOfStream);
      }
      var f := remaining[0];
      if !f.StringField? {
        return Err(UnexpectedField(f));
      }
      remaining := remaining[1..];
      r := Ok(f.s);
    }

    method ReadBoolean() returns (r: Result<bool, ReadError>)
      modifies this
      ensures TakeBool(old(remaining)).Ok? <==> r.Ok?
      ensures r.Ok? ==> (r.value, remaining) == TakeBool(old(remaining)).value
      ensures r.Err? ==> r.error == TakeBool(old(remaining)).error
      ensures r.Err? ==> remaining == old(remaining)
    {
      if |remaining| == 0 {
        return Err(EndOfStream);
      }
      var f := remaining[0];
      if !f.BoolField? {
        return Err(UnexpectedField(f));
      }
      remaining := remaining[1..];
      r := Ok(f.b);
    }

    method ReadInt() returns (r: Result<int32, ReadError>)
      modifies this
      ensures TakeInt(old(remaining)).Ok? <==> r.Ok?
      ensures r.Ok? ==> (r.value, remaining) == TakeInt(old(remaining)).value
      ensures r.Err? ==> r.error == TakeInt(old(remaining)).error
      ensures r.Err? ==> remaining == old(remaining)
    {
      if |remaining| == 0 {
        return Err(EndOfStream);
      }
      var f := remaining[0];
      if !f.IntField? {
        return Err(UnexpectedField(f));
      }
      remaining := remaining[1..];
      r := Ok(f.i);
    }
  }

  /** `write`: appends the chunk's fields to the output, one call per field. */
  method Write(c: Chunk, output: FieldOutput)
    modifies output
    ensures output.written == old(output.written) + Encode(c)
  {
    output.WriteString(c.id);
    match c
    case Extent(_, objectId, fileNumber, start, finish) =>
      output.WriteInt(objectId);
      output.WriteInt(fileNumber);
      output.WriteInt(start);
      output.WriteInt(finish);
    case Partition(_, isSubPartition, blocks) =>
      output.WriteBoolean(isSubPartition);
      output.WriteInt(blocks);
  }

  /** `rest` is what is left of `input` after some of its fields were read. */
  ghost predicate Consumed(input: seq<Field>, rest: seq<Field>) {
    |rest| <= |input| && rest == input[|input| - |rest|..]
  }

  /**
   * `readFields` on a chunk of the given variant: reads the fields one by
   * one, stopping at the first read that fails.
   */
  method ReadFields(kind: ChunkKind, input: FieldInput) returns (r: Result<Chunk, ReadError>)
    modifies input
    ensures Decode(kind, old(input.remaining)).Ok? <==> r.Ok?
    ensures r.Ok? ==> (r.value, input.remaining) == Decode(kind, old(input.remaining)).value
    ensures r.Err? ==> r.error == Decode(kind, old(input.remaining)).error
    ensures r.Err? ==> Consumed(old(input.remaining), input.remaining)
  {
    var id := input.ReadString();
    if id.Err? {
      return Err(id.error);
    }
    if kind == ExtentKind {
      var objectId := input.ReadInt();
      if objectId.Err? {
        return Err(objectId.error);
      }
      var fileNumber := input.ReadInt();
      if fileNumber.Err? {
        return Err(fileNumber.error);
      }
      var start := input.ReadInt();
      if start.Err? {
        return Err(start.error);
      }
      var finish := input.ReadInt();
      if finish.Err? {
        return Err(finish.error);
      }
      r := Ok(Extent(id.value, objectId.value, fileNumber.value, start.value, finish.value));
    } else {
      var isSubPartition := input.ReadBoolean();
      if isSubPartition.Err? {
        return Err(isSubPartition.error);
      }
      var blocks := input.ReadInt();
      if blocks.Err? {
        return Err(blocks.error);
      }
      r := Ok(Partition(id.value, isSubPartition.value, blocks.value));
    }
  }

  /** Writing a chunk to a fresh stream and reading it back gives the same chunk. */
  method WriteThenRead(c: Chunk) returns (r: Result<Chunk, ReadError>)
    ensures r == Ok(c)
  {
    var output := new FieldOutput();
    Write(c, output);
    var input := new FieldInput(output.written);
    DecodeEncode(c, []);
    assert output.written == Encode(c) + [];
    r := ReadFields(KindOf(c), input);
  }
}
