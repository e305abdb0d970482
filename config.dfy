/**
  Connection settings in both programs: the engine switches (`defaultPort`, `driverName`,
  `buildJdbcUrl`), Go's `config.validate`, which reports the first problem and defaults
  the port in place, and Java's `Config.fromArgs`, which parses `-flag value` tokens and
  collects every problem.
 */
module Config {
  import opened Wrappers
  import opened Text

  // ---- engines ------------------------------------------------------------------

  /** The three supported database engines. */
  datatype Engine = Oracle | SqlServer | Postgres

  /** The engine an `-engine` value names, compared after lower-casing; `None` when unsupported. */
  function EngineOf(name: string): Option<Engine>
  {
    var l := ToLower(name);
    if l == "oracle" then Some(Oracle)
    else if l == "sqlserver" then Some(SqlServer)
    else if l == "postgres" then Some(Postgres)
    else None
  }

  /** The engine name is case-insensitive: lower-casing it first changes nothing. */
  lemma EngineOfIgnoresCase(name: string)
    ensures EngineOf(ToLower(name)) == EngineOf(name)
  {
    ToLowerIdempotent(name);
  }

  /** `defaultPort`: each engine's well-known port, 0 for an unsupported name. */
  function DefaultPort(engine: string): (p: int)
    ensures p == 0 <==> EngineOf(engine).None?
    ensures p == 0 || p == 1521 || p == 1433 || p == 5432
  {
    match EngineOf(engine)
    case Some(Oracle) => 1521
    case Some(SqlServer) => 1433
    case Some(Postgres) => 5432
    case None => 0
  }

  /** `driverName` (Go): the `database/sql` driver of each engine, "" for an unsupported name. */
  function DriverName(engine: string): (d: string)
    ensures d == "" <==> EngineOf(engine).None?
  {
    match EngineOf(engine)
    case Some(Oracle) => "oracle"
    case Some(SqlServer) => "sqlserver"
    case Some(Postgres) => "pgx"
    case None => ""
  }

  /** The two switches give each engine a distinct port and driver. */
  lemma EnginesDistinct(a: string, b: string)
    requires EngineOf(a).Some? && EngineOf(b).Some?
    ensures DefaultPort(a) == DefaultPort(b) <==> EngineOf(a) == EngineOf(b)
    ensures DriverName(a) == DriverName(b) <==> EngineOf(a) == EngineOf(b)
  {
  }

  // ---- settings ------------------------------------------------------------------

  /** The fields both programs' configurations carry. */
  datatype Settings = Settings(engine: string, host: string, port: int, username: string,
                               password: string, dbname: string, sqlPath: string)

  /** The message both programs give for an engine they do not support. */
  function UnsupportedEngine(engine: string): string
  {
    "unsupported engine: " + engine
  }

  /**
    The error `validate` returns for `s`: the first missing field in the order engine,
    host, dbname, sql path, then an unsupported engine; `None` for valid settings.
   */
  function ValidationError(s: Settings): Option<string>
  {
    if s.engine == "" then Some("engine is required")
    else if s.host == "" then Some("host is required")
    else if s.dbname == "" then Some("dbname is required")
    else if s.sqlPath == "" then Some("sql path is required")
    else if EngineOf(s.engine).None? then Some(UnsupportedEngine(s.engine))
    else None
  }

  /** A port of 0 stands for "the engine's default". */
  function WithDefaultPort(s: Settings): Settings
  {
    if s.port == 0 then s.(port := DefaultPort(s.engine)) else s
  }

  /**
    Valid settings keep being valid once defaulted, end up with a nonzero port, and
    defaulting again changes nothing: a second `validate` is a no-op.
   */
  lemma DefaultingIsStable(s: Settings)
    requires ValidationError(s) == None
    ensures ValidationError(WithDefaultPort(s)) == None
    ensures WithDefaultPort(s).port != 0
    ensures WithDefaultPort(WithDefaultPort(s)) == WithDefaultPort(s)
    ensures WithDefaultPort(s).port == (if s.port == 0 then DefaultPort(s.engine) else s.port)
  {
  }

  /** Go's `config`: the fields `main` fills from the command line, and `validate`. */
  class GoConfig {
    var engine: string
    var host: string
    var port: int
    var username: string
    var password: string
    var dbname: string
    var sqlPath: string

    constructor (s: Settings)
      ensures Fields() == s
    {
      engine, host, port := s.engine, s.host, s.port;
      username, password := s.username, s.password;
      dbname, sqlPath := s.dbname, s.sqlPath;
    }

    function Fields(): Settings
      reads this
    {
      Settings(engine, host, port, username, password, dbname, sqlPath)
    }

    /**
      `validate`: returns the first problem with the settings, and only when there is
      none replaces a port of 0 by the engine's default.
     */
    method Validate() returns (err: Option<string>)
      modifies this`port
      ensures err == ValidationError(old(Fields()))
      ensures Fields() == if err.None? then WithDefaultPort(old(Fields())) else old(Fields())
    {
      if engine == "" {
        return Some("engine is required");
      }
      if host == "" {
        return Some("host is required");
      }
      if dbname == "" {
        return Some("dbname is required");
      }
      if sqlPath == "" {
        return Some("sql path is required");
      }
      if EngineOf(engine).None? {
        return Some(UnsupportedEngine(engine));
      }
      if port == 0 {
        port := DefaultPort(engine);
      }
      return None;
    }
  }

  // ---- Java: Config.fromArgs ------------------------------------------------------

  /** `arg.replaceFirst("^-+", "")`: the token without its leading run of dashes. */
  function StripDashes(arg: string): (key: string)
    ensures |key| <= |arg| && key == arg[|arg| - |key|..]
    ensures key == [] || key[0] != '-'
    ensures forall k :: 0 <= k < |arg| - |key| ==> arg[k] == '-'
  {
    if arg != [] && arg[0] == '-' then
      var rest := StripDashes(arg[1..]);
      assert forall k :: 1 <= k < |arg| - |rest| ==> arg[k] == arg[1..][k - 1];
      rest
    else arg
  }

  /** What the token loop leaves behind: the flag values by key, and the errors so far. */
  datatype Parsed = Parsed(params: map<string, string>, errors: seq<string>)

  /**
    The token loop of `fromArgs` as a recursion over the tokens, from the front: a token
    without a leading `-` is an unknown argument, a flag with no token after it has a
    missing value, and otherwise the next token, whatever it is, is the flag's value. A
    key given again later overrides the earlier value.
   */
  function ParseArgs(args: seq<string>): Parsed
    decreases |args|
  {
    if args == [] then Parsed(map[], [])
    else if !StartsWith(args[0], "-") then
      var rest := ParseArgs(args[1..]);
      Parsed(rest.params, ["unknown argument: " + args[0]] + rest.errors)
    else if |args| == 1 then Parsed(map[], ["missing value for " + args[0]])
    else
      var rest := ParseArgs(args[2..]);
      Parsed(map[StripDashes(args[0]) := args[1]] + rest.params, rest.errors)
  }

  /** The loop's state after some tokens, followed by the parse of the remaining ones. */
  function Then(done: Parsed, rest: Parsed): Parsed
  {
    Parsed(done.params + rest.params, done.errors + rest.errors)
  }

  /** Java's `Config`: the settings and every error found while building them. */
  datatype JavaConfig = JavaConfig(settings: Settings, errors: seq<string>)

  function Lookup(params: map<string, string>, key: string, default: string): string
  {
    if key in params then params[key] else default
  }

  /** The checks after the port, in Java's order; Go's `validate` stops at the first of them. */
  function CheckErrors(s: Settings): seq<string>
  {
    (if s.engine == "" then ["engine is required"] else [])
    + (if s.host == "" then ["host is required"] else [])
    + (if s.dbname == "" then ["dbname is required"] else [])
    + (if s.sqlPath == "" then ["sql path is required"] else [])
    + (if s.engine != "" && EngineOf(s.engine).None? then [UnsupportedEngine(s.engine)] else [])
  }

  /**
    The settings `fromArgs` reads from the parsed flags, before any port defaulting: each
    field given or its default (the username defaults to `db_admin`), and the port parsed
    when it is given, 0 when it is missing or not a number.
   */
  function RawSettings(p: Parsed): Settings
  {
    var parsedPort := if "port" in p.params then ParseInt(p.params["port"]) else Some(0);
    Settings(Lookup(p.params, "engine", ""), Lookup(p.params, "host", ""),
             if parsedPort.Some? then parsedPort.value else 0,
             Lookup(p.params, "username", "db_admin"), Lookup(p.params, "password", ""),
             Lookup(p.params, "dbname", ""), Lookup(p.params, "sql", ""))
  }

  /**
    The part of `fromArgs` after the token loop: the settings read from the flags, every
    error appended in order (a port that is not a number first), and a port of 0 replaced
    by the engine's default whenever an engine is named.
   */
  function Settle(p: Parsed): JavaConfig
  {
    var s := RawSettings(p);
    var portErrors := if "port" in p.params && ParseInt(p.params["port"]).None? then ["port must be a number"] else [];
    var port := if s.port == 0 && s.engine != "" then DefaultPort(s.engine) else s.port;
    JavaConfig(s.(port := port), p.errors + portErrors + CheckErrors(s))
  }

  lemma ThenUnknown(done: Parsed, args: seq<string>, i: nat)
    requires i < |args| && !StartsWith(args[i], "-")
    ensures Then(done, ParseArgs(args[i..])) ==
            Then(Parsed(done.params, done.errors + ["unknown argument: " + args[i]]), ParseArgs(args[i + 1..]))
  {
    assert args[i..][1..] == args[i + 1..];
  }

  lemma ThenFlag(done: Parsed, args: seq<string>, i: nat)
    requires i + 1 < |args| && StartsWith(args[i], "-")
    ensures Then(done, ParseArgs(args[i..])) ==
            Then(Parsed(done.params[StripDashes(args[i]) := args[i + 1]], done.errors), ParseArgs(args[i + 2..]))
  {
    assert args[i..][2..] == args[i + 2..];
    var rest := ParseArgs(args[i + 2..]);
    var key := StripDashes(args[i]);
    assert done.params + (map[key := args[i + 1]] + rest.params) == done.params[key := args[i + 1]] + rest.params;
  }

  lemma ThenMissing(done: Parsed, args: seq<string>, i: nat)
    requires i + 1 == |args| && StartsWith(args[i], "-")
    ensures Then(done, ParseArgs(args[i..])) ==
            Then(Parsed(done.params, done.errors + ["missing value for " + args[i]]), ParseArgs(args[i + 1..]))
  {
    assert args[i..] == [args[i]];
    assert args[i + 1..] == [];
    assert done.params + map[] == done.params;
  }

  lemma ThenEnd(done: Parsed, args: seq<string>)
    ensures Then(done, ParseArgs(args[|args|..])) == done
  {
    assert args[|args|..] == [];
    assert done.params + map[] == done.params;
  }

  /**
    `Config.fromArgs`: the token loop over `args`, with `++i` consuming a flag's value,
    then the defaults and checks.
   */
  method FromArgs(args: seq<string>) returns (config: JavaConfig)
    ensures config == Settle(ParseArgs(args))
  {
    var params: map<string, string> := map[];
    var errors: seq<string> := [];
    var i := 0;
    while i < |args|
      invariant 0 <= i <= |args|
      invariant Then(Parsed(params, errors), ParseArgs(args[i..])) == ParseArgs(args)
      decreases |args| - i
    {
      var arg := args[i];
      if !StartsWith(arg, "-") {
        ThenUnknown(Parsed(params, errors), args, i);
        errors := errors + ["unknown argument: " + arg];
        i := i + 1;
        continue;
      }
      var key := StripDashes(arg);
      if i + 1 >= |args| {
        ThenMissing(Parsed(params, errors), args, i);
        errors := errors + ["missing value for " + arg];
        i := i + 1;
        continue;
      }
      ThenFlag(Parsed(params, errors), args, i);
      i := i + 1;
      params := params[key := args[i]];
      i := i + 1;
    }
    ThenEnd(Parsed(params, errors), args);
    config := Settle(Parsed(params, errors));
  }

  /**
    `buildJdbcUrl`: the JDBC URL of each engine; any other engine is the
    `IllegalArgumentException` with the unsupported-engine message.
   */
  function BuildJdbcUrl(c: JavaConfig): (r: Result<string, string>)
    ensures r.Success? <==> EngineOf(c.settings.engine).Some?
    ensures r.Failure? ==> r.error == UnsupportedEngine(c.settings.engine)
  {
    var s := c.settings;
    match EngineOf(s.engine)
    case Some(Oracle) => Success("jdbc:oracle:thin:@" + s.host + ":" + IntToString(s.port) + "/" + s.dbname)
    case Some(SqlServer) => Success("jdbc:sqlserver://" + s.host + ":" + IntToString(s.port) + ";databaseName=" + s.dbname)
    case Some(Postgres) => Success("jdbc:postgresql://" + s.host + ":" + IntToString(s.port) + "/" + s.dbname)
    case None => Failure(UnsupportedEngine(s.engine))
  }

  // ---- how the two validations relate ----------------------------------------------

  /**
    Go reports the first of the problems Java lists after the port: Go's `validate`
    fails exactly when Java's checks find something, and with Java's first message.
   */
  lemma GoReportsJavasFirstError(s: Settings)
    ensures ValidationError(s) == if CheckErrors(s) == [] then None else Some(CheckErrors(s)[0])
  {
  }

  /**
    A configuration `fromArgs` builds without errors names a supported engine, so its
    JDBC URL exists, and has a nonzero port: the one given, or the engine's default.
   */
  lemma NoErrorsMeansUrl(p: Parsed)
    requires Settle(p).errors == []
    ensures BuildJdbcUrl(Settle(p)).Success?
    ensures Settle(p).settings.port != 0
    ensures "port" !in p.params ==> Settle(p).settings.port == DefaultPort(Settle(p).settings.engine)
  {
    assert CheckErrors(RawSettings(p)) == [];
  }

  /**
    On flags both programs accept, they end with the same port: Go's `validate`, given the
    settings read from the flags, accepts them and sets the port Java's defaulting settles on.
   */
  lemma SamePortWhenValid(p: Parsed)
    requires CheckErrors(RawSettings(p)) == []
    ensures ValidationError(RawSettings(p)) == None
    ensures WithDefaultPort(RawSettings(p)).port == Settle(p).settings.port
  {
  }

  /** A key given again later keeps the later value. */
  lemma LaterFlagWins(flag: string, value: string, rest: seq<string>)
    requires StartsWith(flag, "-") && StripDashes(flag) in ParseArgs(rest).params
    ensures var key := StripDashes(flag);
      key in ParseArgs([flag, value] + rest).params && ParseArgs([flag, value] + rest).params[key] == ParseArgs(rest).params[key]
  {
    assert ([flag, value] + rest)[2..] == rest;
  }

  /** A flag's value is the next token even when it looks like a flag itself. */
  lemma FlagValueMayStartWithDash(flag: string, value: string)
    requires StartsWith(flag, "-")
    ensures ParseArgs([flag, value]) == Parsed(map[StripDashes(flag) := value], [])
  {
    assert [flag, value][2..] == [];
  }

  /** An unknown argument is reported and parsing goes on with the next token. */
  lemma UnknownArgumentSkipped(arg: string, rest: seq<string>)
    requires !StartsWith(arg, "-")
    ensures ParseArgs([arg] + rest) == Parsed(ParseArgs(rest).params, ["unknown argument: " + arg] + ParseArgs(rest).errors)
  {
    assert ([arg] + rest)[1..] == rest;
  }
}
