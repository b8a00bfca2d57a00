/**
 * `OraOopJdbcUrl` and `OraOopUtilities.JdbcOracleThinConnection`: reading
 * the host, port and SID or service out of an Oracle thin-driver JDBC URL,
 * and printing a connection back as such a URL.
 */
module OracleJdbcUrls {
  import opened Wrappers
  import opened JavaStrings

  // ------------------------------------------------- thin connections

  /**
   * The parsed parts of a thin-driver URL. `None` stands for a null `sid`
   * or `service`; a parsed URL sets exactly one of them.
   */
  datatype JdbcOracleThinConnection = JdbcOracleThinConnection(
    host: string, port: int32, sid: Option<string>, service: Option<string>)

  const JDBC: string := "jdbc"
  const ORACLE: string := "oracle"
  const THIN: string := "thin"

  /** The fixed start of every URL `toString` prints. */
  const THIN_PREFIX: string := JDBC + ":" + ORACLE + ":" + THIN + ":@"

  const NO_SID_OR_SERVICE: string := "Unable to generate a JDBC URL, as no SID or SERVICE has been provided."

  predicate NonEmpty(s: Option<string>) {
    s.Some? && s.value != ""
  }

  /**
   * `JdbcOracleThinConnection.toString`: the SID form when a SID is set,
   * else the service form when a service is set; otherwise it throws.
   */
  function ToString(c: JdbcOracleThinConnection): (r: Result<string, string>)
    ensures r.Err? <==> !NonEmpty(c.sid) && !NonEmpty(c.service)
    ensures r.Err? ==> r.error == NO_SID_OR_SERVICE
    ensures r.Ok? ==> StartsWith(r.value, THIN_PREFIX + c.host + ":" + IntToString(c.port))
  {
    var head := THIN_PREFIX + c.host + ":" + IntToString(c.port);
    if NonEmpty(c.sid) then
      assert (head + ":" + c.sid.value)[..|head|] == head;
      Ok(head + ":" + c.sid.value)
    else if NonEmpty(c.service) then
      assert (head + "/" + c.service.value)[..|head|] == head;
      Ok(head + "/" + c.service.value)
    else Err(NO_SID_OR_SERVICE)
  }

  // ------------------------------------------------------- the URL text

  /** The stored connect string; the constructor refuses null and empty ones. */
  datatype OraOopJdbcUrl = OraOopJdbcUrl(jdbcConnectString: string)

  const NULL_URL_MESSAGE: string := "The jdbcConnectionString argument must not be null."
  const EMPTY_URL_MESSAGE: string := "The jdbcConnectionString argument must not be empty."

  /** `new OraOopJdbcUrl(jdbcConnectString)`. */
  function Create(jdbcConnectString: Option<string>): (r: Result<OraOopJdbcUrl, string>)
    ensures jdbcConnectString.None? ==> r == Err(NULL_URL_MESSAGE)
    ensures jdbcConnectString == Some("") ==> r == Err(EMPTY_URL_MESSAGE)
    ensures r.Ok? <==> NonEmpty(jdbcConnectString)
    ensures r.Ok? ==> r.value.jdbcConnectString == jdbcConnectString.value
  {
    if jdbcConnectString.None? then Err(NULL_URL_MESSAGE)
    else if jdbcConnectString.value == "" then Err(EMPTY_URL_MESSAGE)
    else Ok(OraOopJdbcUrl(jdbcConnectString.value))
  }

  /** `connectionStringContainsProperties`: the URL carries `?parameters`. */
  function ConnectionStringContainsProperties(url: OraOopJdbcUrl): (r: bool)
    ensures r <==> '?' in url.jdbcConnectString
  {
    IndexOf(url.jdbcConnectString, '?') > -1
  }

  /** The text before the first `?`, or all of it when there is none. */
  function CutParameters(s: string): (r: string)
    ensures '?' !in r
    ensures '?' !in s ==> r == s
    ensures '?' in s ==> r == s[..IndexOf(s, '?')]
  {
    var paramsIdx := IndexOf(s, '?');
    if paramsIdx > -1 then s[..paramsIdx] else s
  }

  /**
   * `getConnectionUrl`: the URL without its parameters. `None` where Java
   * indexes an empty split result, which happens only when the text before
   * the first `?` is empty and every later piece is too.
   */
  function GetConnectionUrl(url: OraOopJdbcUrl): (r: Option<string>)
    ensures !ConnectionStringContainsProperties(url) ==> r == Some(url.jdbcConnectString)
    ensures r.Some? ==> r.value == CutParameters(url.jdbcConnectString)
    ensures CutParameters(url.jdbcConnectString) != "" ==> r.Some?
  {
    var s := url.jdbcConnectString;
    if !ConnectionStringContainsProperties(url) then Some(s)
    else
      var fragments := Split(s, '?');
      SplitAllHead(s, '?');
      if |fragments| == 0 then None else Some(fragments[0])
  }

  // ------------------------------------------------------------ parsing

  /** The exceptions the parser throws, one per check. */
  datatype ParseError =
    | WrongPieceCount(url: string, count: nat)
    | NotJdbc
    | NotOracle
    | NotThin(driver: string)
    | EmptyHost
    | HostWithoutAt
    | NoPortAndService
    | EmptyPort
    | PortNotNumber(port: string)
    | PortNotPositive(port: string)

  /** The message of each `JdbcOracleThinConnectionParsingError`. */
  function Message(e: ParseError): string {
    match e
    case WrongPieceCount(url, count) =>
      "There should be 5 or 6 colon-separated pieces of data in the JDBC URL, such as:\n"
      + "\tjdbc:oracle:<driver-type>:@<host>:<port>:<sid>\n"
      + "\tjdbc:oracle:<driver-type>:@<host>:<port>/<service>\n"
      + "\tjdbc:oracle:<driver-type>:@<host>:<port>/<service>?<parameters>\n"
      + "The JDBC URL specified was:\n" + url + "\nwhich contains " + IntToString(count)
      + " pieces of colon-separated data."
    case NotJdbc => "The first item in the colon-separated JDBC URL must be \"jdbc\"."
    case NotOracle => "The second item in the colon-separated JDBC URL must be \"oracle\"."
    case NotThin(driver) =>
      "The Oracle \"thin\" JDBC driver is not being used.\n"
      + "The third item in the colon-separated JDBC URL must be \"thin\", not \"" + driver + "\"."
    case EmptyHost => "The fourth item in the colon-separated JDBC URL (the host name) must not be empty."
    case HostWithoutAt =>
      "The fourth item in the colon-separated JDBC URL (the host name) must a prefixed with the \"@\" character."
    case NoPortAndService =>
      "The fifth colon-separated item in the JDBC URL (<port>/<service>) must contain two items separated by a \"/\"."
    case EmptyPort => "The fifth item in the colon-separated JDBC URL (the port) must not be empty."
    case PortNotNumber(port) =>
      "The fifth item in the colon-separated JDBC URL (the port) must be a valid number.\n"
      + "\"" + port + "\" could not be parsed as an integer."
    case PortNotPositive(port) =>
      "The fifth item in the colon-separated JDBC URL (the port) must be greater than zero.\n"
      + "\"" + port + "\" was specified."
  }

  function TrimEach(pieces: seq<string>): (r: seq<string>)
    ensures |r| == |pieces|
  {
    seq(|pieces|, i requires 0 <= i < |pieces| => Trim(pieces[i]))
  }

  /** The trimmed colon-separated fragments the parser inspects. */
  function Fragments(jdbcConnectString: string): seq<string> {
    TrimEach(Split(Trim(CutParameters(Trim(jdbcConnectString))), ':'))
  }

  /**
   * `replaceFirst("^[@][/]{0,2}", "")` on a host fragment: the `@` goes,
   * and with it as many as two `/` that follow it.
   */
  function StripHostPrefix(h: string): (r: string)
    requires StartsWith(h, "@")
    ensures |h| - 3 <= |r| < |h| && h[|h| - |r|..] == r
    ensures forall i :: 1 <= i < |h| - |r| ==> h[i] == '/'
    ensures |h| - |r| < 3 ==> |r| == 0 || r[0] != '/'
  {
    var t := h[1..];
    if |t| >= 2 && t[0] == '/' && t[1] == '/' then t[2..]
    else if |t| >= 1 && t[0] == '/' then t[1..]
    else t
  }

  /**
   * The checks `parseJdbcOracleThinConnectionString` makes on the
   * fragments, in order, and the connection it builds when all pass.
   */
  function ParseFragments(original: string, f: seq<string>): (r: Result<JdbcOracleThinConnection, ParseError>) {
    if |f| < 5 || |f| > 6 then Err(WrongPieceCount(original, |f|))
    else if !EqualsIgnoreCase(f[0], JDBC) then Err(NotJdbc)
    else if !EqualsIgnoreCase(f[1], ORACLE) then Err(NotOracle)
    else if !EqualsIgnoreCase(f[2], THIN) then Err(NotThin(f[2]))
    else if f[3] == "" || EqualsIgnoreCase(f[3], "@") then Err(EmptyHost)
    else if !StartsWith(f[3], "@") then Err(HostWithoutAt)
    else if |f| == 5 && |Split(f[4], '/')| != 2 then Err(NoPortAndService)
    else
      var portStr := PortField(f);
      var sid := if |f| == 6 then Some(f[5]) else None;
      var service := if |f| == 6 then None else Some(Trim(Split(f[4], '/')[1]));
      if portStr == "" then Err(EmptyPort)
      else match ParseInt(portStr)
        case None => Err(PortNotNumber(portStr))
        case Some(port) =>
          if port <= 0 then Err(PortNotPositive(portStr))
          else Ok(JdbcOracleThinConnection(StripHostPrefix(f[3]), port, sid, service))
  }

  /**
   * Every check before the port's passed: five or six fragments, the
   * `jdbc:oracle:thin` driver, an `@`-prefixed host, and with five
   * fragments a `<port>/<service>` pair.
   */
  predicate ReachesPort(f: seq<string>) {
    && 5 <= |f| <= 6
    && EqualsIgnoreCase(f[0], JDBC) && EqualsIgnoreCase(f[1], ORACLE) && EqualsIgnoreCase(f[2], THIN)
    && f[3] != "" && !EqualsIgnoreCase(f[3], "@") && StartsWith(f[3], "@")
    && (|f| == 6 || |Split(f[4], '/')| == 2)
  }

  /** The port text: the fifth fragment, or with five fragments the trimmed part before its `/`. */
  function PortField(f: seq<string>): string
    requires 5 <= |f| <= 6 && (|f| == 6 || |Split(f[4], '/')| == 2)
  {
    if |f| == 6 then f[4] else Trim(Split(f[4], '/')[0])
  }

  /**
   * What a successful parse guarantees: five or six fragments, the
   * `jdbc:oracle:thin` driver (any case), an `@`-prefixed host, a positive
   * port, and a SID exactly for six fragments, a service exactly for five;
   * a wrong number of fragments is the first error reported.
   */
  lemma ParseFragmentsAccepts(original: string, f: seq<string>)
    ensures ParseFragments(original, f) == Err(WrongPieceCount(original, |f|)) <==> !(5 <= |f| <= 6)
    ensures var r := ParseFragments(original, f);
            r.Ok? ==> 5 <= |f| <= 6 && EqualsIgnoreCase(f[0], JDBC)
                      && EqualsIgnoreCase(f[1], ORACLE) && EqualsIgnoreCase(f[2], THIN)
                      && StartsWith(f[3], "@") && r.value.host == StripHostPrefix(f[3])
                      && r.value.port > 0
                      && (r.value.sid.Some? <==> |f| == 6) && (r.value.service.Some? <==> |f| == 5)
  {
    if 5 <= |f| <= 6 {
      assert ParseFragments(original, f) != Err(WrongPieceCount(original, |f|));
    }
  }

  /** With six fragments, a successful parse takes its port and SID from the last two. */
  lemma ParseSixFragments(original: string, f: seq<string>)
    requires |f| == 6
    ensures var r := ParseFragments(original, f);
            r.Ok? ==> ParseInt(f[4]) == Some(r.value.port) && r.value.sid == Some(f[5])
  {
  }

  /**
   * The checks run in order, each with its own error: an error is reported
   * exactly when every earlier check passed and its own check failed.
   */
  lemma ParseErrorsInOrder(original: string, f: seq<string>)
    ensures var r := ParseFragments(original, f);
            var counted := 5 <= |f| <= 6;
            && (r == Err(NotJdbc) <==> counted && !EqualsIgnoreCase(f[0], JDBC))
            && (r == Err(NotOracle) <==> counted && EqualsIgnoreCase(f[0], JDBC) && !EqualsIgnoreCase(f[1], ORACLE))
            && (r.Err? && r.error.NotThin? <==>
                  counted && EqualsIgnoreCase(f[0], JDBC) && EqualsIgnoreCase(f[1], ORACLE)
                  && !EqualsIgnoreCase(f[2], THIN))
            && (r == Err(EmptyHost) <==>
                  counted && EqualsIgnoreCase(f[0], JDBC) && EqualsIgnoreCase(f[1], ORACLE)
                  && EqualsIgnoreCase(f[2], THIN) && (f[3] == "" || EqualsIgnoreCase(f[3], "@")))
            && (r == Err(HostWithoutAt) <==>
                  counted && EqualsIgnoreCase(f[0], JDBC) && EqualsIgnoreCase(f[1], ORACLE)
                  && EqualsIgnoreCase(f[2], THIN) && f[3] != "" && !EqualsIgnoreCase(f[3], "@")
                  && !StartsWith(f[3], "@"))
            && (r == Err(NoPortAndService) <==>
                  |f| == 5 && EqualsIgnoreCase(f[0], JDBC) && EqualsIgnoreCase(f[1], ORACLE)
                  && EqualsIgnoreCase(f[2], THIN) && f[3] != "" && !EqualsIgnoreCase(f[3], "@")
                  && StartsWith(f[3], "@") && |Split(f[4], '/')| != 2)
            && (r == Err(EmptyPort) <==> ReachesPort(f) && PortField(f) == "")
            && (r.Err? && r.error.PortNotNumber? <==>
                  ReachesPort(f) && PortField(f) != "" && ParseInt(PortField(f)).None?)
            && (r.Err? && r.error.PortNotPositive? <==>
                  ReachesPort(f) && PortField(f) != "" && ParseInt(PortField(f)).Some?
                  && ParseInt(PortField(f)).value <= 0)
            && (r.Ok? <==>
                  ReachesPort(f) && PortField(f) != "" && ParseInt(PortField(f)).Some?
                  && ParseInt(PortField(f)).value > 0)
  {
  }

  /**
   * Everything from the first `?` on is ignored: appending parameters to a
   * URL leaves the fragments the parser inspects as they were.
   */
  lemma ParametersIgnored(s: string, params: string)
    requires '?' !in s
    ensures Fragments(s + "?" + params) == Fragments(s)
  {
    CutAfterTrim(s, params);
    TrimOfTrimStart(s);
    NoParametersAfterTrim(s);
  }

  lemma CutAfterTrim(s: string, params: string)
    requires '?' !in s
    ensures CutParameters(Trim(s + "?" + params)) == TrimStart(s)
  {
    var t := TrimStart(s);
    TrimAround(s, '?', params);
    assert '?' !in t;
    CutAt(t, TrimEnd(params));
  }

  lemma CutAt(t: string, e: string)
    requires '?' !in t
    ensures CutParameters(t + "?" + e) == t
  {
    IndexOfConcat(t, '?', e);
    assert (t + "?" + e)[..|t|] == t;
  }

  lemma TrimOfTrimStart(s: string)
    ensures Trim(TrimStart(s)) == Trim(s)
  {
    var t := TrimStart(s);
    assert TrimStart(t) == t;
  }

  lemma NoParametersAfterTrim(s: string)
    requires '?' !in s
    ensures Trim(CutParameters(Trim(s))) == Trim(s)
  {
    var t := TrimStart(s);
    assert '?' !in t;
    assert '?' !in TrimEnd(t);
    TrimOfTrimmed(Trim(s));
  }

  /** The loop that trims every fragment of the split array in place. */
  method TrimFragments(fragments: array<string>)
    modifies fragments
    ensures fragments[..] == TrimEach(old(fragments[..]))
  {
    ghost var pieces := fragments[..];
    var idx := 0;
    while idx < fragments.Length
      invariant 0 <= idx <= fragments.Length
      invariant TrimmedUpTo(fragments[..], pieces, idx)
    {
      ghost var current := fragments[..];
      fragments[idx] := Trim(fragments[idx]);
      assert fragments[..] == current[idx := Trim(pieces[idx])];
      TrimmedStep(current, pieces, idx);
      idx := idx + 1;
    }
    TrimmedAll(fragments[..], pieces);
  }

  /** The first `n` fragments are trimmed and the rest are still the pieces. */
  ghost predicate TrimmedUpTo(fragments: seq<string>, pieces: seq<string>, n: nat) {
    && |fragments| == |pieces| && n <= |pieces|
    && (forall i :: 0 <= i < n ==> fragments[i] == Trim(pieces[i]))
    && (forall i :: n <= i < |fragments| ==> fragments[i] == pieces[i])
  }

  lemma TrimmedStep(fragments: seq<string>, pieces: seq<string>, n: nat)
    requires TrimmedUpTo(fragments, pieces, n) && n < |pieces|
    ensures TrimmedUpTo(fragments[n := Trim(pieces[n])], pieces, n + 1)
  {
  }

  lemma TrimmedAll(fragments: seq<string>, pieces: seq<string>)
    requires TrimmedUpTo(fragments, pieces, |pieces|)
    ensures fragments == TrimEach(pieces)
  {
  }

  /**
   * The first half of `parseJdbcOracleThinConnectionString`: trim the URL,
   * cut off its parameters, split it at `:` and trim each fragment.
   */
  method SplitJdbcUrl(jdbcConnectString: string) returns (jdbcFragments: array<string>)
    ensures fresh(jdbcFragments)
    ensures jdbcFragments[..] == Fragments(jdbcConnectString)
  {
    var jdbcUrl := Trim(jdbcConnectString);
    ghost var trimmed := jdbcUrl;
    var paramsIdx := IndexOf(jdbcUrl, '?');
    if paramsIdx > -1 {
      jdbcUrl := jdbcUrl[..paramsIdx];
    }
    assert jdbcUrl == CutParameters(trimmed);
    var pieces := Split(Trim(jdbcUrl), ':');
    jdbcFragments := NewArray(pieces);
    TrimFragments(jdbcFragments);
    assert jdbcFragments[..] == TrimEach(pieces);
  }

  /** The fresh array `String.split` returns, holding the given pieces. */
  method NewArray(pieces: seq<string>) returns (a: array<string>)
    ensures fresh(a) && a[..] == pieces
  {
    a := new string[|pieces|](i requires 0 <= i < |pieces| => pieces[i]);
  }

  /**
   * `parseJdbcOracleThinConnectionString`: trims the URL, drops its
   * parameters, splits it at `:` and trims the fragments, then runs the
   * checks of `ParseFragments`.
   */
  method ParseJdbcOracleThinConnectionString(url: OraOopJdbcUrl)
    returns (r: Result<JdbcOracleThinConnection, ParseError>)
    ensures r == ParseFragments(url.jdbcConnectString, Fragments(url.jdbcConnectString))
  {
    var jdbcFragments := SplitJdbcUrl(url.jdbcConnectString);
    r := CheckFragments(url.jdbcConnectString, jdbcFragments[..]);
  }

  /**
   * The checks `parseJdbcOracleThinConnectionString` runs on the trimmed
   * fragments, statement by statement with its early returns. This is the
   * same parse as `ParseFragments`, written as the source's method; the
   * function is its specification and the lemmas about the parse are
   * stated on the function.
   */
  method CheckFragments(original: string, f: seq<string>)
    returns (r: Result<JdbcOracleThinConnection, ParseError>)
    ensures r == ParseFragments(original, f)
  {
    if |f| < 5 || |f| > 6 {
      return Err(WrongPieceCount(original, |f|));
    }
    if !EqualsIgnoreCase(f[0], JDBC) {
      return Err(NotJdbc);
    }
    if !EqualsIgnoreCase(f[1], ORACLE) {
      return Err(NotOracle);
    }
    if !EqualsIgnoreCase(f[2], THIN) {
      return Err(NotThin(f[2]));
    }
    var hostName := f[3];
    if hostName == "" || EqualsIgnoreCase(hostName, "@") {
      return Err(EmptyHost);
    }
    if !StartsWith(hostName, "@") {
      return Err(HostWithoutAt);
    }
    var portStr := "";
    var sid: Option<string> := None;
    var service: Option<string> := None;
    if |f| == 6 {
      portStr := f[4];
      sid := Some(f[5]);
    } else {
      var portAndService := Split(f[4], '/');
      if |portAndService| != 2 {
        return Err(NoPortAndService);
      }
      portStr := Trim(portAndService[0]);
      service := Some(Trim(portAndService[1]));
    }
    if portStr == "" {
      return Err(EmptyPort);
    }
    var parsed := ParseInt(portStr);
    if parsed.None? {
      return Err(PortNotNumber(portStr));
    }
    var port := parsed.value;
    if port <= 0 {
      return Err(PortNotPositive(portStr));
    }
    r := Ok(JdbcOracleThinConnection(StripHostPrefix(hostName), port, sid, service));
  }

  // --------------------------------------------------------- round trip

  /** A host `toString` prints so that parsing reads it back unchanged. */
  predicate PrintableHost(host: string) {
    host != [] && ':' !in host && '?' !in host && host[0] != '/' && !IsTrimmed(host[|host| - 1])
  }

  /** A SID or service name that survives printing and parsing. */
  predicate PrintableName(name: string) {
    name != [] && ':' !in name && '/' !in name && '?' !in name && IsTrim(name)
  }

  /** A port prints as digits only. */
  lemma PortText(port: int32)
    requires port > 0
    ensures IntToString(port) != [] && IsTrim(IntToString(port))
    ensures ':' !in IntToString(port) && '/' !in IntToString(port) && '?' !in IntToString(port)
    ensures ParseInt(IntToString(port)) == Some(port)
  {
    var p := IntToString(port);
    assert AllDigits(p);
    ParseIntToString(port);
  }

  /** The URL's colon-separated pieces, glued back together. */
  lemma PrefixPieces(rest: seq<string>)
    requires |rest| >= 1
    ensures Join([JDBC, ORACLE, THIN] + rest, ':') == JDBC + ":" + ORACLE + ":" + THIN + ":" + Join(rest, ':')
  {
    JoinPrefix(JDBC, ORACLE, THIN, rest);
  }

  lemma JoinPrefix(x: string, y: string, z: string, rest: seq<string>)
    requires |rest| >= 1
    ensures Join([x, y, z] + rest, ':') == x + ":" + y + ":" + z + ":" + Join(rest, ':')
  {
    ConsThree(x, y, z, rest);
    JoinThree(x, y, z, rest);
    ColonsAssociate(x, y, z, Join(rest, ':'));
  }

  lemma ConsThree(x: string, y: string, z: string, rest: seq<string>)
    ensures [x, y, z] + rest == [x] + ([y] + ([z] + rest))
  {
  }

  lemma JoinThree(x: string, y: string, z: string, rest: seq<string>)
    requires |rest| >= 1
    ensures Join([x] + ([y] + ([z] + rest)), ':') == x + [':'] + (y + [':'] + (z + [':'] + Join(rest, ':')))
  {
    JoinCons(z, rest, ':');
    JoinCons(y, [z] + rest, ':');
    JoinCons(x, [y] + ([z] + rest), ':');
  }

  lemma ColonsAssociate(x: string, y: string, z: string, j: string)
    ensures x + [':'] + (y + [':'] + (z + [':'] + j)) == x + ":" + y + ":" + z + ":" + j
  {
  }

  /** Pieces without a colon or surrounding whitespace. */
  predicate PlainPieces(ps: seq<string>) {
    forall i :: 0 <= i < |ps| ==> ':' !in ps[i] && IsTrim(ps[i])
  }

  /** Parsing the pieces of a printed URL. */
  lemma FragmentsOfPieces(u: string, ps: seq<string>)
    requires |ps| >= 1 && u == Join(ps, ':') && IsTrim(u) && '?' !in u
    requires PlainPieces(ps) && ps[|ps| - 1] != []
    ensures Fragments(u) == ps
  {
    PlainUrl(u);
    SplitJoin(ps, ':');
    TrimEachTrimmed(ps);
  }

  /** The driver fragments followed by plain pieces are all plain. */
  lemma DriverPiecesPlain(rest: seq<string>)
    requires |rest| >= 1 && PlainPieces(rest)
    ensures PlainPieces([JDBC, ORACLE, THIN] + rest)
    ensures ([JDBC, ORACLE, THIN] + rest)[|rest| + 2] == rest[|rest| - 1]
  {
    var ps := [JDBC, ORACLE, THIN] + rest;
    forall i | 0 <= i < |ps|
      ensures ':' !in ps[i] && IsTrim(ps[i])
    {
      if i >= 3 {
        assert ps[i] == rest[i - 3];
      }
    }
  }

  lemma PlainPair(a: string, b: string)
    requires ':' !in a && IsTrim(a) && ':' !in b && IsTrim(b)
    ensures PlainPieces([a, b])
  {
  }

  lemma PlainTriple(a: string, b: string, c: string)
    requires ':' !in a && IsTrim(a) && ':' !in b && IsTrim(b) && ':' !in c && IsTrim(c)
    ensures PlainPieces([a, b, c])
  {
  }

  /** A trimmed URL without parameters reaches the split unchanged. */
  lemma PlainUrl(u: string)
    requires IsTrim(u) && '?' !in u
    ensures Trim(CutParameters(Trim(u))) == u
  {
    TrimOfTrimmed(u);
  }

  lemma TrimEachTrimmed(ps: seq<string>)
    requires forall i :: 0 <= i < |ps| ==> IsTrim(ps[i])
    ensures TrimEach(ps) == ps
  {
    forall i | 0 <= i < |ps|
      ensures TrimEach(ps)[i] == ps[i]
    {
      TrimOfTrimmed(ps[i]);
    }
  }

  /** The host fragment `@host` is accepted and yields the host again. */
  lemma HostFragment(host: string)
    requires PrintableHost(host)
    ensures var h := "@" + host; h != "" && !EqualsIgnoreCase(h, "@") && StartsWith(h, "@")
    ensures StripHostPrefix("@" + host) == host
    ensures IsTrim("@" + host) && ':' !in "@" + host && '?' !in "@" + host
  {
    var h := "@" + host;
    assert |ToUpper(h)| != |ToUpper("@")|;
    assert h[1..] == host;
  }

  /** The pieces of a printed SID URL. */
  lemma SidUrlPieces(host: string, p: string, sid: string)
    ensures THIN_PREFIX + host + ":" + p + ":" + sid == Join([JDBC, ORACLE, THIN] + ["@" + host, p, sid], ':')
  {
    var rest := ["@" + host, p, sid];
    var tail := host + ":" + p + ":" + sid;
    SidRest(host, p, sid);
    Regroup("@", host, ":", p, ":", sid);
    PrefixPieces(rest);
    ThinPrefixAt(tail);
    Regroup(THIN_PREFIX, host, ":", p, ":", sid);
  }

  lemma SidRest(host: string, p: string, sid: string)
    ensures Join(["@" + host, p, sid], ':') == "@" + host + ":" + p + ":" + sid
  {
    JoinCons(p, [sid], ':');
    JoinCons("@" + host, [p, sid], ':');
  }

  /** The pieces of a printed service URL. */
  lemma ServiceUrlPieces(host: string, p: string, service: string)
    ensures THIN_PREFIX + host + ":" + p + "/" + service == Join([JDBC, ORACLE, THIN] + ["@" + host, p + "/" + service], ':')
  {
    var rest := ["@" + host, p + "/" + service];
    var tail := host + ":" + p + "/" + service;
    ServiceRest(host, p, service);
    Regroup("@", host, ":", p, "/", service);
    PrefixPieces(rest);
    ThinPrefixAt(tail);
    Regroup(THIN_PREFIX, host, ":", p, "/", service);
  }

  lemma ServiceRest(host: string, p: string, service: string)
    ensures Join(["@" + host, p + "/" + service], ':') == "@" + host + ":" + p + "/" + service
  {
    JoinCons("@" + host, [p + "/" + service], ':');
  }

  /** The driver prefix joined with a host fragment is the printed prefix. */
  lemma ThinPrefixAt(tail: string)
    ensures JDBC + ":" + ORACLE + ":" + THIN + ":" + ("@" + tail) == THIN_PREFIX + tail
  {
    assert ":@" == ":" + "@";
  }

  lemma Regroup(x: string, a: string, b: string, c: string, d: string, e: string)
    ensures x + a + b + c + d + e == x + (a + b + c + d + e)
  {
  }

  /** A printed URL has no surrounding whitespace and no parameters. */
  lemma PrintedUrlPlain(host: string, p: string, sep: string, name: string)
    requires PrintableHost(host) && PrintableName(name) && '?' !in p && '?' !in sep
    ensures var u := THIN_PREFIX + host + ":" + p + sep + name; IsTrim(u) && '?' !in u
  {
    var u := THIN_PREFIX + host + ":" + p + sep + name;
    assert u[0] == 'j';
    assert u[|u| - 1] == name[|name| - 1];
    assert '?' !in THIN_PREFIX;
  }

  /** The six fragments of a SID URL pass every check. */
  lemma ParseSidFragments(u: string, host: string, port: int32, sid: string)
    requires PrintableHost(host) && port > 0 && PrintableName(sid)
    ensures ParseFragments(u, [JDBC, ORACLE, THIN] + ["@" + host, IntToString(port), sid])
            == Ok(JdbcOracleThinConnection(host, port, Some(sid), None))
  {
    var f := [JDBC, ORACLE, THIN] + ["@" + host, IntToString(port), sid];
    assert |f| == 6 && f[0] == JDBC && f[1] == ORACLE && f[2] == THIN;
    assert f[3] == "@" + host && f[4] == IntToString(port) && f[5] == sid;
    PortText(port);
    HostFragment(host);
  }

  /** The five fragments of a service URL pass every check. */
  lemma ParseServiceFragments(u: string, host: string, port: int32, service: string)
    requires PrintableHost(host) && port > 0 && PrintableName(service)
    ensures ParseFragments(u, [JDBC, ORACLE, THIN] + ["@" + host, IntToString(port) + "/" + service])
            == Ok(JdbcOracleThinConnection(host, port, None, Some(service)))
  {
    var p := IntToString(port);
    var f := [JDBC, ORACLE, THIN] + ["@" + host, p + "/" + service];
    assert |f| == 5 && f[0] == JDBC && f[1] == ORACLE && f[2] == THIN;
    assert f[3] == "@" + host && f[4] == p + "/" + service;
    PortText(port);
    HostFragment(host);
    PortAndService(p, service);
    ServiceFragmentsChecked(u, f, p, service, port);
  }

  /** Five fragments whose checks all pass parse to their host, port and service. */
  lemma ServiceFragmentsChecked(u: string, f: seq<string>, p: string, service: string, port: int32)
    requires |f| == 5 && EqualsIgnoreCase(f[0], JDBC) && EqualsIgnoreCase(f[1], ORACLE) && EqualsIgnoreCase(f[2], THIN)
    requires f[3] != "" && !EqualsIgnoreCase(f[3], "@") && StartsWith(f[3], "@")
    requires Split(f[4], '/') == [p, service] && Trim(p) == p && Trim(service) == service
    requires p != "" && ParseInt(p) == Some(port) && port > 0
    ensures ParseFragments(u, f) == Ok(JdbcOracleThinConnection(StripHostPrefix(f[3]), port, None, Some(service)))
  {
  }

  /** The port-and-service fragment splits back into its two parts. */
  lemma PortAndService(p: string, service: string)
    requires p != [] && '/' !in p && IsTrim(p) && PrintableName(service)
    ensures Split(p + "/" + service, '/') == [p, service]
    ensures Trim(p) == p && Trim(service) == service
  {
    JoinCons(p, [service], '/');
    SplitJoin([p, service], '/');
    TrimOfTrimmed(p);
    TrimOfTrimmed(service);
  }

  /**
   * Parsing what `toString` prints for a SID connection gives the same
   * host, port and SID back.
   */
  lemma SidRoundTrip(host: string, port: int32, sid: string)
    requires PrintableHost(host) && port > 0 && PrintableName(sid)
    ensures var c := JdbcOracleThinConnection(host, port, Some(sid), None);
            ToString(c).Ok? && ParseFragments(ToString(c).value, Fragments(ToString(c).value)) == Ok(c)
  {
    var c := JdbcOracleThinConnection(host, port, Some(sid), None);
    var u := ToString(c).value;
    assert u == THIN_PREFIX + host + ":" + IntToString(port) + ":" + sid;
    SidFragments(host, port, sid);
    var f := Fragments(u);
    assert f == [JDBC, ORACLE, THIN] + ["@" + host, IntToString(port), sid];
    ParseSidFragments(u, host, port, sid);
  }

  /** A printed SID URL splits into the driver, the host, the port and the SID. */
  lemma SidFragments(host: string, port: int32, sid: string)
    requires PrintableHost(host) && port > 0 && PrintableName(sid)
    ensures Fragments(THIN_PREFIX + host + ":" + IntToString(port) + ":" + sid)
            == [JDBC, ORACLE, THIN] + ["@" + host, IntToString(port), sid]
  {
    var p := IntToString(port);
    PortText(port);
    HostFragment(host);
    var u := THIN_PREFIX + host + ":" + p + ":" + sid;
    SidUrlPieces(host, p, sid);
    PrintedUrlPlain(host, p, ":", sid);
    var rest := ["@" + host, p, sid];
    PlainTriple("@" + host, p, sid);
    DriverPiecesPlain(rest);
    FragmentsOfPieces(u, [JDBC, ORACLE, THIN] + rest);
  }

  /**
   * Parsing what `toString` prints for a service connection gives the same
   * host, port and service back.
   */
  lemma ServiceRoundTrip(host: string, port: int32, service: string)
    requires PrintableHost(host) && port > 0 && PrintableName(service)
    ensures var c := JdbcOracleThinConnection(host, port, None, Some(service));
            ToString(c).Ok? && ParseFragments(ToString(c).value, Fragments(ToString(c).value)) == Ok(c)
  {
    var c := JdbcOracleThinConnection(host, port, None, Some(service));
    var u := ToString(c).value;
    assert u == THIN_PREFIX + host + ":" + IntToString(port) + "/" + service;
    ServiceFragments(host, port, service);
    var f := Fragments(u);
    assert f == [JDBC, ORACLE, THIN] + ["@" + host, IntToString(port) + "/" + service];
    ParseServiceFragments(u, host, port, service);
  }

  /** A printed service URL splits into the driver, the host and `port/service`. */
  lemma ServiceFragments(host: string, port: int32, service: string)
    requires PrintableHost(host) && port > 0 && PrintableName(service)
    ensures Fragments(THIN_PREFIX + host + ":" + IntToString(port) + "/" + service)
            == [JDBC, ORACLE, THIN] + ["@" + host, IntToString(port) + "/" + service]
  {
    var p := IntToString(port);
    PortText(port);
    HostFragment(host);
    var u := THIN_PREFIX + host + ":" + p + "/" + service;
    ServiceUrlPieces(host, p, service);
    PrintedUrlPlain(host, p, "/", service);
    var portAndService := p + "/" + service;
    PortAndServicePlain(p, service);
    var rest := ["@" + host, portAndService];
    PlainPair("@" + host, portAndService);
    DriverPiecesPlain(rest);
    FragmentsOfPieces(u, [JDBC, ORACLE, THIN] + rest);
  }

  lemma PortAndServicePlain(p: string, service: string)
    requires p != [] && IsTrim(p) && ':' !in p && PrintableName(service)
    ensures IsTrim(p + "/" + service) && ':' !in p + "/" + service
  {
    var ps := p + "/" + service;
    assert ps[0] == p[0] && ps[|ps| - 1] == service[|service| - 1];
  }
}
