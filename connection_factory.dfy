/**
 * `OracleConnectionFactory.parseOraOopSessionInitializationStatements`: the
 * statements run on every new Oracle session, read from one configuration
 * property as a `;`-separated list with comments and blanks skipped and
 * `{name|default}` expressions expanded.
 */
module ConnectionFactory {
  import opened Wrappers
  import opened JavaStrings
  import opened Utilities

  const ORAOOP_SESSION_INITIALIZATION_STATEMENTS: string := "oraoop.oracle.session.initialization.statements"

  /** A piece whose trimmed text starts with this is a comment. */
  const ORACLE_SQL_STATEMENT_COMMENT_TOKEN: string := "--"

  const NO_CONF_MESSAGE: string := "No configuration argument must be specified."

  // ------------------------------------------------- keeping the statements

  /** A trimmed piece that is run: not blank and not a comment. */
  predicate IsStatement(trimmed: string) {
    trimmed != "" && !StartsWith(trimmed, ORACLE_SQL_STATEMENT_COMMENT_TOKEN)
  }

  /** What one piece contributes: its trimmed text when that is a statement. */
  function Kept(piece: string): (r: seq<string>)
    ensures |r| <= 1
  {
    var statement := Trim(piece);
    if IsStatement(statement) then [statement] else []
  }

  /** What the pieces contribute, in order. */
  function Gather(keep: string -> seq<string>, pieces: seq<string>): seq<string> {
    if |pieces| == 0 then []
    else Gather(keep, pieces[..|pieces| - 1]) + keep(pieces[|pieces| - 1])
  }

  /** The trimmed pieces that are statements, in their original order. */
  function KeptStatements(pieces: seq<string>): seq<string> {
    Gather(Kept, pieces)
  }

  /** One more piece adds what it contributes. */
  lemma GatherStep(keep: string -> seq<string>, pieces: seq<string>, idx: nat)
    requires idx < |pieces|
    ensures Gather(keep, pieces[..idx + 1]) == Gather(keep, pieces[..idx]) + keep(pieces[idx])
  {
    assert pieces[..idx + 1][..idx] == pieces[..idx];
  }

  // ------------------------------------------------ expanding the statements

  /** Every statement's expansion ends. */
  predicate AllExpandable(conf: Configuration, statements: seq<string>) {
    forall k :: 0 <= k < |statements| ==> Expandable(statements[k], conf)
  }

  /** Each statement's expansion, in order. */
  function Expansions(conf: Configuration, statements: seq<string>): (r: seq<Result<string, string>>)
    requires AllExpandable(conf, statements)
    ensures |r| == |statements|
    decreases |statements|
  {
    if |statements| == 0 then []
    else
      var last := |statements| - 1;
      Expansions(conf, statements[..last]) + [ReplaceConfigurationExpression(statements[last], conf)]
  }

  /** The expansion at each position is that statement's own expansion. */
  lemma {:induction false} ExpansionsAt(conf: Configuration, statements: seq<string>, k: nat)
    requires AllExpandable(conf, statements) && k < |statements|
    ensures Expansions(conf, statements)[k] == ReplaceConfigurationExpression(statements[k], conf)
    decreases |statements|
  {
    var last := |statements| - 1;
    ExpansionsLast(conf, statements);
    IndexSnoc(Expansions(conf, statements[..last]), ReplaceConfigurationExpression(statements[last], conf), k);
    if k < last {
      ExpansionsAt(conf, statements[..last], k);
    }
  }

  /** The last statement's expansion comes last. */
  lemma ExpansionsLast(conf: Configuration, statements: seq<string>)
    requires AllExpandable(conf, statements) && |statements| > 0
    ensures AllExpandable(conf, statements[..|statements| - 1])
    ensures Expansions(conf, statements)
            == Expansions(conf, statements[..|statements| - 1])
               + [ReplaceConfigurationExpression(statements[|statements| - 1], conf)]
  {
  }

  lemma IndexSnoc<T>(a: seq<T>, x: T, k: nat)
    requires k <= |a|
    ensures (a + [x])[k] == if k < |a| then a[k] else x
  {
  }

  /** Expanding a longer list expands each part. */
  lemma {:induction false} ExpansionsAppend(conf: Configuration, a: seq<string>, b: seq<string>)
    requires AllExpandable(conf, a + b)
    ensures AllExpandable(conf, a) && AllExpandable(conf, b)
    ensures Expansions(conf, a + b) == Expansions(conf, a) + Expansions(conf, b)
    decreases |b|
  {
    assert AllExpandable(conf, a) by {
      forall k | 0 <= k < |a|
        ensures Expandable(a[k], conf)
      {
        assert (a + b)[k] == a[k];
      }
    }
    assert AllExpandable(conf, b) by {
      forall k | 0 <= k < |b|
        ensures Expandable(b[k], conf)
      {
        assert (a + b)[|a| + k] == b[k];
      }
    }
    if |b| == 0 {
      assert a + b == a;
    } else {
      var last := |b| - 1;
      var init := b[..last];
      assert (a + b)[..|a + b| - 1] == a + init;
      assert (a + b)[|a + b| - 1] == b[last];
      ExpansionsAppend(conf, a, init);
      var x := ReplaceConfigurationExpression(b[last], conf);
      assert Expansions(conf, a + b) == Expansions(conf, a + init) + [x];
      assert Expansions(conf, b) == Expansions(conf, init) + [x];
    }
  }

  /** The statements kept from the first pieces come first among all kept statements. */
  lemma {:induction false} GatherPrefix(keep: string -> seq<string>, pieces: seq<string>, n: nat)
    requires n <= |pieces|
    ensures Gather(keep, pieces) == Gather(keep, pieces[..n]) + Gather(keep, pieces[n..])
    decreases |pieces|
  {
    if n == |pieces| {
      assert pieces[..n] == pieces;
      assert pieces[n..] == [];
    } else {
      var last := |pieces| - 1;
      GatherPrefix(keep, pieces[..last], n);
      SlicesOfInit(pieces, n);
      GatherLast(keep, pieces);
      GatherLast(keep, pieces[n..]);
      Associate(Gather(keep, pieces[..n]), Gather(keep, pieces[..last][n..]), keep(pieces[last]));
    }
  }

  lemma Associate(a: seq<string>, b: seq<string>, c: seq<string>)
    ensures (a + b) + c == a + (b + c)
  {
  }

  /** The last piece contributes last. */
  lemma GatherLast(keep: string -> seq<string>, pieces: seq<string>)
    requires |pieces| > 0
    ensures Gather(keep, pieces) == Gather(keep, pieces[..|pieces| - 1]) + keep(pieces[|pieces| - 1])
  {
  }

  /** Cutting all but the last piece, then at `n`, cuts the same slices. */
  lemma SlicesOfInit(pieces: seq<string>, n: nat)
    requires n < |pieces|
    ensures pieces[..|pieces| - 1][..n] == pieces[..n]
    ensures pieces[..|pieces| - 1][n..] == pieces[n..][..|pieces| - 1 - n]
    ensures pieces[n..][|pieces| - 1 - n] == pieces[|pieces| - 1]
    ensures |pieces[n..]| - 1 == |pieces| - 1 - n
  {
  }

  /** Where the kept statements of all pieces expand, so do those of the first pieces. */
  lemma ExpandablePrefix(keep: string -> seq<string>, conf: Configuration,
                      pieces: seq<string>, n: nat)
    requires n <= |pieces| && AllExpandable(conf, Gather(keep, pieces))
    ensures AllExpandable(conf, Gather(keep, pieces[..n]))
  {
    GatherPrefix(keep, pieces, n);
    ExpansionsAppend(conf, Gather(keep, pieces[..n]), Gather(keep, pieces[n..]));
  }

  // ------------------------------------------------------------- the method

  /** The statements read from the configuration, before expansion. */
  function StatementText(conf: Configuration): string {
    GetOrDefault(conf, ORAOOP_SESSION_INITIALIZATION_STATEMENTS, "")
  }

  /**
   * Every statement's expansion ends: each value substituted into it is
   * free of `}`. A configuration with no `}` in any value meets this.
   */
  predicate StatementsExpandable(conf: Configuration) {
    AllExpandable(conf, KeptStatements(Split(StatementText(conf), ';')))
  }

  /** What the method returns for a non-null configuration. */
  function SessionStatements(conf: Configuration): Result<seq<string>, string>
    requires StatementsExpandable(conf)
  {
    var text := StatementText(conf);
    if text == "" then Ok([]) else FirstError(Expansions(conf, KeptStatements(Split(text, ';'))))
  }

  /**
   * `parseOraOopSessionInitializationStatements`: a null configuration is
   * refused; an absent or empty property gives no statements; otherwise
   * the statements among the `;`-separated pieces, expanded.
   */
  method ParseOraOopSessionInitializationStatements(conf: Option<Configuration>)
    returns (r: Result<seq<string>, string>)
    requires conf.Some? ==> StatementsExpandable(conf.value)
    ensures conf.None? ==> r == Err(NO_CONF_MESSAGE)
    ensures conf.Some? ==> r == SessionStatements(conf.value)
  {
    if conf.None? {
      return Err(NO_CONF_MESSAGE);
    }
    var text := GetOrDefault(conf.value, ORAOOP_SESSION_INITIALIZATION_STATEMENTS, "");
    if text == "" {
      return Ok([]);
    }
    r := ExpandStatements(Split(text, ';'), conf.value);
  }

  /**
   * The loop over the `;`-separated pieces: each is trimmed, blanks and
   * comments are skipped, and the rest are expanded and added in order.
   */
  method ExpandStatements(initializationStatements: seq<string>, conf: Configuration)
    returns (r: Result<seq<string>, string>)
    requires AllExpandable(conf, KeptStatements(initializationStatements))
    ensures r == FirstError(Expansions(conf, KeptStatements(initializationStatements)))
  {
    var result: seq<string> := [];
    var idx := 0;
    ExpandedNone(conf, initializationStatements);
    while idx < |initializationStatements|
      invariant 0 <= idx <= |initializationStatements|
      invariant ExpandedPrefix(conf, initializationStatements, idx) == Ok(result)
    {
      var statement := Trim(initializationStatements[idx]);
      if IsStatement(statement) {
        ExpandedStatement(conf, initializationStatements, idx);
        var expanded := ReplaceConfigurationExpression(statement, conf);
        if expanded.Err? {
          ExpandedFails(conf, initializationStatements, idx, result);
          return Err(expanded.error);
        }
        ExpandedKeeps(conf, initializationStatements, idx, result);
        result := result + [expanded.value];
      } else {
        ExpandedSkip(conf, initializationStatements, idx, result);
      }
      idx := idx + 1;
    }
    ExpandedAll(conf, initializationStatements, result);
    r := Ok(result);
  }

  /** The expansions of the statements kept from the first `idx` pieces. */
  ghost function ExpandedPrefix(conf: Configuration, pieces: seq<string>, idx: nat): Result<seq<string>, string>
    requires idx <= |pieces| && AllExpandable(conf, KeptStatements(pieces))
  {
    ExpandablePrefix(Kept, conf, pieces, idx);
    FirstError(Expansions(conf, KeptStatements(pieces[..idx])))
  }

  /** Before the loop nothing is expanded. */
  lemma ExpandedNone(conf: Configuration, pieces: seq<string>)
    requires AllExpandable(conf, KeptStatements(pieces))
    ensures ExpandedPrefix(conf, pieces, 0) == Ok([])
  {
    ExpandablePrefix(Kept, conf, pieces, 0);
    assert pieces[..0] == [];
  }

  /** A piece that is blank or a comment leaves the expansions as they were. */
  lemma ExpandedSkip(conf: Configuration, pieces: seq<string>, idx: nat, result: seq<string>)
    requires idx < |pieces| && AllExpandable(conf, KeptStatements(pieces))
    requires ExpandedPrefix(conf, pieces, idx) == Ok(result) && !IsStatement(Trim(pieces[idx]))
    ensures ExpandedPrefix(conf, pieces, idx + 1) == Ok(result)
  {
    ExpandablePrefix(Kept, conf, pieces, idx);
    ExpandablePrefix(Kept, conf, pieces, idx + 1);
    KeptNone(pieces[idx]);
    GatherSkip(Kept, pieces, idx);
  }

  /** A statement from the pieces can be expanded. */
  lemma ExpandedStatement(conf: Configuration, pieces: seq<string>, idx: nat)
    requires idx < |pieces| && AllExpandable(conf, KeptStatements(pieces))
    requires IsStatement(Trim(pieces[idx]))
    ensures Expandable(Trim(pieces[idx]), conf)
  {
    KeptStatementsComplete(pieces, idx);
    var j := |KeptStatements(pieces[..idx])|;
    assert Expandable(KeptStatements(pieces)[j], conf);
  }

  /** A statement that expands adds its expansion. */
  lemma ExpandedKeeps(conf: Configuration, pieces: seq<string>, idx: nat, result: seq<string>)
    requires idx < |pieces| && AllExpandable(conf, KeptStatements(pieces))
    requires ExpandedPrefix(conf, pieces, idx) == Ok(result) && IsStatement(Trim(pieces[idx]))
    requires Expandable(Trim(pieces[idx]), conf) && ReplaceConfigurationExpression(Trim(pieces[idx]), conf).Ok?
    ensures ExpandedPrefix(conf, pieces, idx + 1) == Ok(result + [ReplaceConfigurationExpression(Trim(pieces[idx]), conf).value])
  {
    ExpandablePrefix(Kept, conf, pieces, idx);
    ExpandablePrefix(Kept, conf, pieces, idx + 1);
    GatherStep(Kept, pieces, idx);
    KeptOne(pieces[idx]);
    ExpandMore(conf, KeptStatements(pieces[..idx]), Trim(pieces[idx]), result);
  }

  /** A statement that fails to expand is the error of the whole list. */
  lemma ExpandedFails(conf: Configuration, pieces: seq<string>, idx: nat, result: seq<string>)
    requires idx < |pieces| && AllExpandable(conf, KeptStatements(pieces))
    requires ExpandedPrefix(conf, pieces, idx) == Ok(result) && IsStatement(Trim(pieces[idx]))
    requires Expandable(Trim(pieces[idx]), conf) && ReplaceConfigurationExpression(Trim(pieces[idx]), conf).Err?
    ensures FirstError(Expansions(conf, KeptStatements(pieces)))
            == Err(ReplaceConfigurationExpression(Trim(pieces[idx]), conf).error)
  {
    ExpandablePrefix(Kept, conf, pieces, idx);
    ExpandablePrefix(Kept, conf, pieces, idx + 1);
    GatherStep(Kept, pieces, idx);
    KeptOne(pieces[idx]);
    ExpandMore(conf, KeptStatements(pieces[..idx]), Trim(pieces[idx]), result);
    FailureEnds(Kept, conf, pieces, idx + 1);
  }

  /** After the loop every piece is expanded. */
  lemma ExpandedAll(conf: Configuration, pieces: seq<string>, result: seq<string>)
    requires AllExpandable(conf, KeptStatements(pieces)) && ExpandedPrefix(conf, pieces, |pieces|) == Ok(result)
    ensures FirstError(Expansions(conf, KeptStatements(pieces))) == Ok(result)
  {
    assert pieces[..|pieces|] == pieces;
  }

  /** Expanding one more statement extends the values or ends the list. */
  lemma ExpandMore(conf: Configuration, statements: seq<string>, statement: string,
                   result: seq<string>)
    requires AllExpandable(conf, statements) && Expandable(statement, conf)
    requires FirstError(Expansions(conf, statements)) == Ok(result)
    ensures AllExpandable(conf, statements + [statement])
    ensures var expanded := ReplaceConfigurationExpression(statement, conf);
            FirstError(Expansions(conf, statements + [statement]))
            == if expanded.Err? then Err(expanded.error) else Ok(result + [expanded.value])
  {
    ExpansionsSnoc(conf, statements, statement);
    FirstErrorSnoc(Expansions(conf, statements), ReplaceConfigurationExpression(statement, conf));
  }

  /** One more statement adds its own expansion at the end. */
  lemma ExpansionsSnoc(conf: Configuration, statements: seq<string>, statement: string)
    requires AllExpandable(conf, statements) && Expandable(statement, conf)
    ensures AllExpandable(conf, statements + [statement])
    ensures Expansions(conf, statements + [statement])
            == Expansions(conf, statements) + [ReplaceConfigurationExpression(statement, conf)]
  {
    var all := statements + [statement];
    forall k | 0 <= k < |all|
      ensures Expandable(all[k], conf)
    {
      if k < |statements| {
        assert all[k] == statements[k];
      }
    }
    assert all[..|all| - 1] == statements;
  }

  /** A failure among the first pieces is the failure of the whole list. */
  lemma FailureEnds(keep: string -> seq<string>, conf: Configuration, pieces: seq<string>, n: nat)
    requires n <= |pieces| && AllExpandable(conf, Gather(keep, pieces)) && AllExpandable(conf, Gather(keep, pieces[..n]))
    requires FirstError(Expansions(conf, Gather(keep, pieces[..n]))).Err?
    ensures FirstError(Expansions(conf, Gather(keep, pieces)))
            == FirstError(Expansions(conf, Gather(keep, pieces[..n])))
  {
    var done := pieces[..n];
    var rest := pieces[n..];
    GatherPrefix(keep, pieces, n);
    ExpansionsAppend(conf, Gather(keep, done), Gather(keep, rest));
    FirstErrorSticks(Expansions(conf, Gather(keep, done)), Expansions(conf, Gather(keep, rest)));
  }

  // ------------------------------------------------ what the method promises

  /** There is at most one statement per piece. */
  lemma {:induction false} KeptStatementsBound(pieces: seq<string>)
    ensures |KeptStatements(pieces)| <= |pieces|
  {
    if |pieces| > 0 {
      KeptStatementsBound(pieces[..|pieces| - 1]);
    }
  }

  /** Every kept statement is trimmed, not blank and not a comment. */
  lemma {:induction false} KeptStatementsShape(pieces: seq<string>)
    ensures forall k :: 0 <= k < |KeptStatements(pieces)| ==>
              IsStatement(KeptStatements(pieces)[k]) && IsTrim(KeptStatements(pieces)[k])
  {
    if |pieces| > 0 {
      var last := |pieces| - 1;
      var kept := KeptStatements(pieces[..last]);
      KeptStatementsShape(pieces[..last]);
      assert KeptStatements(pieces) == kept + Kept(pieces[last]);
      forall k | 0 <= k < |KeptStatements(pieces)|
        ensures IsStatement(KeptStatements(pieces)[k]) && IsTrim(KeptStatements(pieces)[k])
      {
        if k < |kept| {
          assert KeptStatements(pieces)[k] == kept[k];
        } else {
          assert KeptStatements(pieces)[k] == Trim(pieces[last]);
        }
      }
    }
  }

  /** Every kept statement is the trimmed text of some piece. */
  lemma {:induction false} KeptStatementsSound(pieces: seq<string>, k: nat)
    requires k < |KeptStatements(pieces)|
    ensures exists i :: 0 <= i < |pieces| && Trim(pieces[i]) == KeptStatements(pieces)[k]
  {
    var last := |pieces| - 1;
    var prefix := pieces[..last];
    var kept := KeptStatements(prefix);
    KeptLast(pieces);
    if k < |kept| {
      KeptStatementsSound(prefix, k);
      var i :| 0 <= i < |prefix| && Trim(prefix[i]) == kept[k];
      assert pieces[i] == prefix[i];
    } else {
      KeptFromLast(pieces, k);
    }
  }

  /** The statements kept from all pieces are those kept before the last, then the last's. */
  lemma KeptLast(pieces: seq<string>)
    requires |pieces| > 0
    ensures KeptStatements(pieces) == KeptStatements(pieces[..|pieces| - 1]) + Kept(pieces[|pieces| - 1])
  {
  }

  /** A kept statement past those of the earlier pieces comes from the last piece. */
  lemma KeptFromLast(pieces: seq<string>, k: nat)
    requires |pieces| > 0
    requires |KeptStatements(pieces[..|pieces| - 1])| <= k < |KeptStatements(pieces)|
    requires KeptStatements(pieces) == KeptStatements(pieces[..|pieces| - 1]) + Kept(pieces[|pieces| - 1])
    ensures Trim(pieces[|pieces| - 1]) == KeptStatements(pieces)[k]
  {
  }

  /**
   * Every piece whose trimmed text is a statement is kept, right after the
   * statements kept from the pieces before it.
   */
  lemma {:induction false} KeptStatementsComplete(pieces: seq<string>, i: nat)
    requires i < |pieces| && IsStatement(Trim(pieces[i]))
    ensures |KeptStatements(pieces[..i])| < |KeptStatements(pieces)|
    ensures KeptStatements(pieces)[|KeptStatements(pieces[..i])|] == Trim(pieces[i])
  {
    var last := |pieces| - 1;
    var prefix := pieces[..last];
    var kept := KeptStatements(prefix);
    assert KeptStatements(pieces) == kept + Kept(pieces[last]);
    if i < last {
      assert prefix[..i] == pieces[..i];
      assert prefix[i] == pieces[i];
      KeptStatementsComplete(prefix, i);
      var j := |KeptStatements(pieces[..i])|;
      assert j < |kept| && kept[j] == Trim(pieces[i]);
    } else {
      assert pieces[..i] == prefix;
    }
  }

  /** Pieces that each contribute one value contribute those values in order. */
  lemma {:induction false} GatherSingletons(keep: string -> seq<string>, pieces: seq<string>)
    requires forall i :: 0 <= i < |pieces| ==> |keep(pieces[i])| == 1
    ensures |Gather(keep, pieces)| == |pieces|
    ensures forall i :: 0 <= i < |pieces| ==> Gather(keep, pieces)[i] == keep(pieces[i])[0]
  {
    if |pieces| > 0 {
      var last := |pieces| - 1;
      var prefix := pieces[..last];
      assert forall i :: 0 <= i < last ==> prefix[i] == pieces[i];
      GatherSingletons(keep, prefix);
      assert keep(pieces[last]) == [keep(pieces[last])[0]];
    }
  }

  /** Pieces that each contribute nothing contribute nothing. */
  lemma {:induction false} GatherEmpty(keep: string -> seq<string>, pieces: seq<string>)
    requires forall i :: 0 <= i < |pieces| ==> keep(pieces[i]) == []
    ensures Gather(keep, pieces) == []
  {
    if |pieces| > 0 {
      var last := |pieces| - 1;
      var prefix := pieces[..last];
      assert forall i :: 0 <= i < last ==> prefix[i] == pieces[i];
      GatherEmpty(keep, prefix);
    }
  }

  /** Pieces that are all statements are all kept, each trimmed, in order. */
  lemma KeptStatementsAll(pieces: seq<string>)
    requires forall i :: 0 <= i < |pieces| ==> IsStatement(Trim(pieces[i]))
    ensures |KeptStatements(pieces)| == |pieces|
    ensures forall i :: 0 <= i < |pieces| ==> KeptStatements(pieces)[i] == Trim(pieces[i])
  {
    forall i | 0 <= i < |pieces|
      ensures Kept(pieces[i]) == [Trim(pieces[i])]
    {
    }
    GatherSingletons(Kept, pieces);
  }

  /** Pieces that are all blank or comments give no statements. */
  lemma KeptStatementsNone(pieces: seq<string>)
    requires forall i :: 0 <= i < |pieces| ==> !IsStatement(Trim(pieces[i]))
    ensures KeptStatements(pieces) == []
  {
    forall i | 0 <= i < |pieces|
      ensures Kept(pieces[i]) == []
    {
    }
    GatherEmpty(Kept, pieces);
  }

  /** A lone `;` splits into no pieces at all, so it gives no statements. */
  lemma SemicolonOnly()
    ensures KeptStatements(Split(";", ';')) == []
  {
    assert SplitAll(";", ';') == ["", ""];
  }

  /** An absent or empty property gives no statements, whatever else is configured. */
  lemma NoStatementsWithoutProperty(conf: Configuration)
    requires StatementText(conf) == ""
    ensures StatementsExpandable(conf) && SessionStatements(conf) == Ok([])
  {
    assert Split("", ';') == [""];
    assert KeptStatements([""]) == Gather(Kept, []) + Kept("");
  }

  /** Where no property value holds a `}`, every statement list can be expanded. */
  lemma NoClosingBraceStatements(conf: Configuration)
    requires NoClosingBrace(conf)
    ensures StatementsExpandable(conf)
  {
    var statements := KeptStatements(Split(StatementText(conf), ';'));
    forall k | 0 <= k < |statements|
      ensures Expandable(statements[k], conf)
    {
      NoClosingBraceExpandable(statements[k], conf);
    }
  }

  /**
   * The statements returned are the kept statements, each expanded, and
   * there are never more of them than `;`-separated pieces.
   */
  lemma SessionStatementsEach(conf: Configuration)
    requires StatementsExpandable(conf)
    requires StatementText(conf) != ""
    requires SessionStatements(conf).Ok?
    ensures var pieces := Split(StatementText(conf), ';');
            var statements := KeptStatements(pieces);
            |SessionStatements(conf).value| == |statements| <= |pieces|
            && forall k :: 0 <= k < |statements| ==>
                 Expandable(statements[k], conf)
                 && ReplaceConfigurationExpression(statements[k], conf) == Ok(SessionStatements(conf).value[k])
  {
    var pieces := Split(StatementText(conf), ';');
    var statements := KeptStatements(pieces);
    var results := Expansions(conf, statements);
    KeptStatementsBound(pieces);
    FirstErrorOk(results);
    forall k | 0 <= k < |statements|
      ensures ReplaceConfigurationExpression(statements[k], conf) == Ok(SessionStatements(conf).value[k])
    {
      ExpansionsAt(conf, statements, k);
    }
  }

  /**
   * The method fails exactly when some kept statement cannot be expanded,
   * and then with the error of the first such statement.
   */
  lemma SessionStatementsFailure(conf: Configuration)
    requires StatementsExpandable(conf)
    requires SessionStatements(conf).Err?
    ensures var pieces := Split(StatementText(conf), ';');
            var statements := KeptStatements(pieces);
            exists k :: 0 <= k < |statements|
                        && ReplaceConfigurationExpression(statements[k], conf) == Err(SessionStatements(conf).error)
                        && forall j :: 0 <= j < k ==> ReplaceConfigurationExpression(statements[j], conf).Ok?
  {
    var pieces := Split(StatementText(conf), ';');
    var statements := KeptStatements(pieces);
    var results := Expansions(conf, statements);
    FirstErrorErr(results);
    var k :| 0 <= k < |results| && results[k] == Err(FirstError(results).error)
             && forall j :: 0 <= j < k ==> results[j].Ok?;
    ExpansionsAt(conf, statements, k);
    forall j | 0 <= j < k
      ensures ReplaceConfigurationExpression(statements[j], conf).Ok?
    {
      ExpansionsAt(conf, statements, j);
    }
  }

  /** `a;b;` splits into the two statements `a` and `b` when neither needs trimming. */
  lemma TwoStatements(first: string, second: string)
    requires ';' !in first && ';' !in second && IsTrim(first) && IsTrim(second)
    requires IsStatement(first) && IsStatement(second)
    ensures KeptStatements(Split(first + ";" + second + ";", ';')) == [first, second]
  {
    SplitTwoTerminated(first, second);
    TrimOfTrimmed(first);
    TrimOfTrimmed(second);
    KeptTwo(first, second);
  }

  /** Two pieces that are statements once trimmed are both kept, trimmed. */
  lemma KeptTwo(first: string, second: string)
    requires IsStatement(Trim(first)) && IsStatement(Trim(second))
    ensures KeptStatements([first, second]) == [Trim(first), Trim(second)]
  {
    GatherPair(Kept, first, second);
    KeptOne(first);
    KeptOne(second);
  }

  /** Two pieces contribute what each contributes, in order. */
  lemma GatherPair(keep: string -> seq<string>, first: string, second: string)
    ensures Gather(keep, [first, second]) == keep(first) + keep(second)
  {
    assert [first, second][..1] == [first];
    assert [first][..0] == [];
    assert Gather(keep, [first]) == keep(first);
  }

  /** A piece that is blank or a comment once trimmed contributes nothing. */
  lemma KeptNone(piece: string)
    requires !IsStatement(Trim(piece))
    ensures Kept(piece) == []
  {
  }

  /** A piece that contributes nothing leaves what was gathered as it was. */
  lemma GatherSkip(keep: string -> seq<string>, pieces: seq<string>, idx: nat)
    requires idx < |pieces| && keep(pieces[idx]) == []
    ensures Gather(keep, pieces[..idx + 1]) == Gather(keep, pieces[..idx])
  {
    GatherStep(keep, pieces, idx);
  }

  /** A piece that is a statement once trimmed contributes its trimmed text. */
  lemma KeptOne(piece: string)
    requires IsStatement(Trim(piece))
    ensures Kept(piece) == [Trim(piece)]
  {
  }

  /** `a;b;` splits at its two semicolons, the empty tail being dropped. */
  lemma SplitTwoTerminated(first: string, second: string)
    requires ';' !in first && ';' !in second && second != ""
    ensures Split(first + ";" + second + ";", ';') == [first, second]
  {
    var text := first + ";" + second + ";";
    TwoTerminatedText(first, second);
    SplitAllCons(first, ';', second + ";");
    SplitAllCons(second, ';', "");
    DropEmptyThird(first, second);
  }

  /** How `a;b;` is built from its pieces. */
  lemma TwoTerminatedText(first: string, second: string)
    ensures (first + ";" + second + ";")[|first|] == ';'
    ensures first + ";" + second + ";" == first + [';'] + (second + ";")
    ensures second + ";" == second + [';'] + ""
  {
  }

  /** The empty piece after the last semicolon is dropped. */
  lemma DropEmptyThird(first: string, second: string)
    requires second != ""
    ensures DropTrailingEmpty([first] + ([second] + SplitAll("", ';'))) == [first, second]
  {
    assert [first] + ([second] + SplitAll("", ';')) == [first, second, ""];
    assert [first, second, ""][..2] == [first, second];
  }

  /** Two statements that expand give their two expansions. */
  lemma SessionTwoStatements(conf: Configuration, first: string, second: string, x: string, y: string)
    requires StatementText(conf) == first + ";" + second + ";"
    requires ';' !in first && ';' !in second && IsTrim(first) && IsTrim(second)
    requires IsStatement(first) && IsStatement(second)
    requires Expandable(first, conf) && Expandable(second, conf)
    requires ReplaceConfigurationExpression(first, conf) == Ok(x)
    requires ReplaceConfigurationExpression(second, conf) == Ok(y)
    ensures StatementsExpandable(conf) && SessionStatements(conf) == Ok([x, y])
  {
    var text := StatementText(conf);
    var statements := KeptStatements(Split(text, ';'));
    assert statements == [first, second] by {
      TwoStatements(first, second);
    }
    assert AllExpandable(conf, [first, second]) && FirstError(Expansions(conf, [first, second])) == Ok([x, y]) by {
      ExpandBoth(conf, first, second);
    }
    assert text != "" by {
      assert text[|first|] == ';';
    }
  }

  /** Two statements that both expand give both values, in order. */
  lemma ExpandBoth(conf: Configuration, first: string, second: string)
    requires Expandable(first, conf) && Expandable(second, conf)
    requires ReplaceConfigurationExpression(first, conf).Ok? && ReplaceConfigurationExpression(second, conf).Ok?
    ensures AllExpandable(conf, [first, second])
    ensures FirstError(Expansions(conf, [first, second]))
            == Ok([ReplaceConfigurationExpression(first, conf).value, ReplaceConfigurationExpression(second, conf).value])
  {
    ExpandablePair(conf, first, second);
    ExpansionsPair(conf, first, second);
    FirstErrorPair(ReplaceConfigurationExpression(first, conf), ReplaceConfigurationExpression(second, conf));
  }

  lemma ExpandablePair(conf: Configuration, first: string, second: string)
    requires Expandable(first, conf) && Expandable(second, conf)
    ensures AllExpandable(conf, [first, second])
  {
    var both := [first, second];
    forall k | 0 <= k < |both|
      ensures Expandable(both[k], conf)
    {
      if k == 0 {
        assert both[k] == first;
      } else {
        assert both[k] == second;
      }
    }
  }

  lemma ExpansionsPair(conf: Configuration, first: string, second: string)
    requires Expandable(first, conf) && Expandable(second, conf) && AllExpandable(conf, [first, second])
    ensures Expansions(conf, [first, second])
            == [ReplaceConfigurationExpression(first, conf), ReplaceConfigurationExpression(second, conf)]
  {
    var both := [first, second];
    assert both[..1] == [first] && [first][..0] == [];
  }

  /** Text that can open a statement: not blank and not the start of a comment. */
  predicate Opens(text: string) {
    text != "" && !IsTrimmed(text[0]) && text[0] != '-'
  }

  /** A statement that opens with a character other than `-` is not a comment. */
  lemma NotComment(text: string)
    requires text != "" && text[0] != '-'
    ensures IsStatement(text)
  {
    if |text| >= 2 {
      assert text[..2][0] == text[0];
      assert ORACLE_SQL_STATEMENT_COMMENT_TOKEN[0] == '-';
    }
  }

  /** Text holding neither a brace nor a `;`. */
  predicate Plain(text: string) {
    '{' !in text && '}' !in text && ';' !in text
  }

  /** Text opening a statement, then an expression, then text ending in `}` is one whole statement. */
  lemma BracedStatement(before: string, expression: string, rest: string)
    requires Opens(before) && Plain(before) && Plain(expression) && ';' !in rest
    requires rest == "" || rest[|rest| - 1] == '}'
    ensures var text := before + "{" + expression + "}" + rest;
            ';' !in text && IsTrim(text) && IsStatement(text)
  {
    var text := before + "{" + expression + "}" + rest;
    assert text[0] == before[0];
    assert text[|text| - 1] == '}';
    NotComment(text);
  }

  /**
   * `b1{e1};b2{e2}m{e3};`: two statements, the first with one expression
   * and the second with two different ones, give the first statement with
   * its expression resolved and the second with both resolved.
   */
  lemma TwoStatementsThreeExpressions(conf: Configuration, first: string, second: string,
                                      b1: string, e1: string, b2: string, e2: string, m: string, e3: string)
    requires StatementText(conf) == first + ";" + second + ";"
    requires first == b1 + "{" + e1 + "}" + "" && second == b2 + "{" + e2 + "}" + (m + "{" + e3 + "}" + "")
    requires Opens(b1) && Opens(b2) && Plain(b1) && Plain(b2) && Plain(m)
    requires Plain(e1) && Plain(e2) && Plain(e3) && e2 != e3
    requires '}' !in Resolve(e1, conf) && '{' !in Resolve(e2, conf) && '}' !in Resolve(e2, conf)
    requires '}' !in Resolve(e3, conf)
    ensures StatementsExpandable(conf)
    ensures SessionStatements(conf)
            == Ok([b1 + Resolve(e1, conf) + "", b2 + Resolve(e2, conf) + m + Resolve(e3, conf) + ""])
  {
    ExpandOne(b1, e1, "", conf);
    ExpandTwo(b2, e2, m, e3, "", conf);
    BracedStatement(b1, e1, "");
    BracedStatement(b2, e2, m + "{" + e3 + "}" + "");
    SessionTwoStatements(conf, first, second, b1 + Resolve(e1, conf) + "",
                         b2 + Resolve(e2, conf) + m + Resolve(e3, conf) + "");
  }

  /**
   * Expressions with and without a configured value: with `expr3` set to
   * `20` and `expr4`, `expr5` unset, the statements
   * `set c={expr3|66};d={expr4|15}/{expr5|90};` give `set c=20` and
   * `d=15/90` (the names are parameters, here and in the source's test
   * `expr3`, `expr4` and `expr5`).
   */
  lemma ExpressionsWithDefaults(conf: Configuration, expr3: string, expr4: string, expr5: string)
    requires Plain(expr3) && Plain(expr4) && Plain(expr5) && '|' !in expr3 && '|' !in expr4 && '|' !in expr5
    requires StatementText(conf) == "set c={" + expr3 + "|66};d={" + expr4 + "|15}/{" + expr5 + "|90};"
    requires expr3 in conf && conf[expr3] == "20" && expr4 !in conf && expr5 !in conf && expr4 != expr5
    ensures StatementsExpandable(conf) && SessionStatements(conf) == Ok(["set c=20", "d=15/90"])
  {
    var e1, e2, e3 := expr3 + "|" + "66", expr4 + "|" + "15", expr5 + "|" + "90";
    var first := "set c=" + "{" + e1 + "}" + "";
    var second := "d=" + "{" + e2 + "}" + ("/" + "{" + e3 + "}" + "");
    ExampleText(expr3, expr4, expr5);
    assert Resolve(e1, conf) == "20" && Resolve(e2, conf) == "15" && Resolve(e3, conf) == "90" by {
      ExpressionPartsOf(expr3, "66");
      ExpressionPartsOf(expr4, "15");
      ExpressionPartsOf(expr5, "90");
    }
    assert e2 != e3 by {
      ExpressionPartsOf(expr4, "15");
      ExpressionPartsOf(expr5, "90");
    }
    ExamplePlain(expr3, "66");
    ExamplePlain(expr4, "15");
    ExamplePlain(expr5, "90");
    ExampleResults();
    TwoStatementsThreeExpressions(conf, first, second, "set c=", e1, "d=", e2, "/", e3);
  }

  /** The text of the example above, cut at its statements and expressions. */
  lemma ExampleText(expr3: string, expr4: string, expr5: string)
    ensures "set c={" + expr3 + "|66};d={" + expr4 + "|15}/{" + expr5 + "|90};"
         == ("set c=" + "{" + (expr3 + "|" + "66") + "}" + "") + ";"
          + ("d=" + "{" + (expr4 + "|" + "15") + "}" + ("/" + "{" + (expr5 + "|" + "90") + "}" + "")) + ";"
  {
  }

  /** An expression `name|default` of the example above has no braces or `;`. */
  lemma ExamplePlain(name: string, default: string)
    requires Plain(name) && default in {"66", "15", "90"}
    ensures Plain(name + "|" + default)
  {
  }

  /** The fixed text and the expanded statements of the example above, written out. */
  lemma ExampleResults()
    ensures Opens("set c=") && Opens("d=") && Plain("set c=") && Plain("d=") && Plain("/")
    ensures "set c=" + "20" + "" == "set c=20"
    ensures "d=" + "15" + "/" + "90" + "" == "d=15/90"
  {
  }
}
