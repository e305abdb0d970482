/**
  The command lines of the project's JDBC URL test (src/test/java/com/example/MainTest.java)
  run through `fromArgs` and `buildJdbcUrl`.
 */
module ConfigExamples {
  import opened Wrappers
  import opened Text
  import opened Config

  /** A flag and its value in front of the remaining tokens. */
  lemma ParseFlag(args: seq<string>)
    requires |args| >= 2 && StartsWith(args[0], "-")
    ensures ParseArgs(args) ==
            Parsed(map[StripDashes(args[0]) := args[1]] + ParseArgs(args[2..]).params, ParseArgs(args[2..]).errors)
  {
  }

  /** Tokens that are all `-name value` pairs: nothing is reported, and the rightmost pair of a key wins. */
  lemma FourPairs(args: seq<string>)
    requires |args| == 8
    requires StartsWith(args[0], "-") && StartsWith(args[2], "-") && StartsWith(args[4], "-") && StartsWith(args[6], "-")
    ensures ParseArgs(args) == Parsed(map[StripDashes(args[0]) := args[1]] + (map[StripDashes(args[2]) := args[3]]
      + (map[StripDashes(args[4]) := args[5]] + (map[StripDashes(args[6]) := args[7]] + map[]))), [])
  {
    ParseFlag(args);
    ParseFlag(args[2..]);
    assert args[2..][2..] == args[4..];
    ParseFlag(args[4..]);
    assert args[4..][2..] == args[6..];
    ParseFlag(args[6..]);
    assert args[6..][2..] == [];
  }

  lemma FivePairs(args: seq<string>)
    requires |args| == 10 && StartsWith(args[0], "-")
    requires StartsWith(args[2], "-") && StartsWith(args[4], "-") && StartsWith(args[6], "-") && StartsWith(args[8], "-")
    ensures ParseArgs(args) == Parsed(map[StripDashes(args[0]) := args[1]] + ParseArgs(args[2..]).params, [])
    ensures ParseArgs(args[2..]) == Parsed(map[StripDashes(args[2]) := args[3]] + (map[StripDashes(args[4]) := args[5]]
      + (map[StripDashes(args[6]) := args[7]] + (map[StripDashes(args[8]) := args[9]] + map[]))), [])
  {
    ParseFlag(args);
    FourPairs(args[2..]);
  }

  /** `-name` is a flag whose key is `name`. */
  lemma FlagKey(x: string, name: string)
    requires x == "-" + name && name != [] && name[0] != '-'
    ensures StartsWith(x, "-") && StripDashes(x) == name
  {
    assert x[1..] == name;
  }

  lemma EnginePostgres(e: string)
    requires e == "postgres"
    ensures EngineOf(e) == Some(Postgres) && DefaultPort(e) == 5432
  {
  }

  lemma EngineSqlServer(e: string)
    requires e == "sqlserver"
    ensures EngineOf(e) == Some(SqlServer)
  {
  }

  lemma PortTexts(n: int)
    ensures n == 5432 ==> IntToString(n) == "5432"
    ensures n == 1435 ==> IntToString(n) == "1435"
  {
    assert NatToString(5) == "5" && NatToString(54) == "54" && NatToString(543) == "543";
    assert NatToString(1) == "1" && NatToString(14) == "14" && NatToString(143) == "143";
  }

  lemma PortParsed(t: string)
    requires t == "1435"
    ensures ParseInt(t) == Some(1435)
  {
    PortTexts(1435);
    ParseIntOfIntToString(1435);
  }

  lemma PostgresText(h: string, n: string, d: string)
    requires h == "127.0.0.1" && n == "5432" && d == "app"
    ensures "jdbc:postgresql://" + h + ":" + n + "/" + d == "jdbc:postgresql://127.0.0.1:5432/app"
  {
  }

  lemma SqlServerText(h: string, n: string, d: string)
    requires h == "db.local" && n == "1435" && d == "app"
    ensures "jdbc:sqlserver://" + h + ":" + n + ";databaseName=" + d == "jdbc:sqlserver://db.local:1435;databaseName=app"
  {
  }

  /** The configuration `fromArgs` builds from parsed flags naming a supported engine and every required field. */
  lemma SettleComplete(p: Parsed, engine: string, host: string, dbname: string, sql: string)
    requires p.errors == [] && engine != [] && host != [] && dbname != [] && sql != []
    requires EngineOf(engine).Some?
    requires "engine" in p.params && p.params["engine"] == engine
    requires "host" in p.params && p.params["host"] == host
    requires "dbname" in p.params && p.params["dbname"] == dbname
    requires "sql" in p.params && p.params["sql"] == sql
    requires "username" !in p.params && "password" !in p.params
    ensures "port" !in p.params ==>
      Settle(p) == JavaConfig(Settings(engine, host, DefaultPort(engine), "db_admin", "", dbname, sql), [])
    ensures "port" in p.params && ParseInt(p.params["port"]).Some? && ParseInt(p.params["port"]).value != 0 ==>
      Settle(p) == JavaConfig(Settings(engine, host, ParseInt(p.params["port"]).value, "db_admin", "", dbname, sql), [])
  {
  }

  // The first command line: no port, so the engine's default is used.

  lemma PostgresParams(args: seq<string>)
    requires |args| == 8 && args[0] == "-engine" && args[1] == "postgres" && args[2] == "-host"
    requires args[3] == "127.0.0.1" && args[4] == "-dbname" && args[5] == "app" && args[6] == "-sql" && args[7] == "a.sql"
    ensures var p := ParseArgs(args);
      && p.errors == []
      && "engine" in p.params && p.params["engine"] == "postgres"
      && "host" in p.params && p.params["host"] == "127.0.0.1"
      && "dbname" in p.params && p.params["dbname"] == "app"
      && "sql" in p.params && p.params["sql"] == "a.sql"
      && "username" !in p.params && "password" !in p.params && "port" !in p.params
  {
    FlagKey(args[0], "engine");
    FlagKey(args[2], "host");
    FlagKey(args[4], "dbname");
    FlagKey(args[6], "sql");
    FourPairs(args);
  }

  /** `-engine postgres -host 127.0.0.1 -dbname app -sql a.sql` gives the PostgreSQL URL on port 5432. */
  lemma PostgresUrl(args: seq<string>)
    requires |args| == 8 && args[0] == "-engine" && args[1] == "postgres" && args[2] == "-host"
    requires args[3] == "127.0.0.1" && args[4] == "-dbname" && args[5] == "app" && args[6] == "-sql" && args[7] == "a.sql"
    ensures BuildJdbcUrl(Settle(ParseArgs(args))) == Success("jdbc:postgresql://127.0.0.1:5432/app")
  {
    PostgresParams(args);
    var p := ParseArgs(args);
    var e, h, d, q := p.params["engine"], p.params["host"], p.params["dbname"], p.params["sql"];
    EnginePostgres(e);
    SettleComplete(p, e, h, d, q);
    PortTexts(5432);
    PostgresText(h, IntToString(5432), d);
  }

  // The second command line gives the port explicitly.

  lemma SqlServerParams(args: seq<string>)
    requires |args| == 10 && args[0] == "-engine" && args[1] == "sqlserver" && args[2] == "-host" && args[3] == "db.local"
    requires args[4] == "-port" && args[5] == "1435" && args[6] == "-dbname" && args[7] == "app"
    requires args[8] == "-sql" && args[9] == "a.sql"
    ensures var p := ParseArgs(args);
      && p.errors == []
      && "engine" in p.params && p.params["engine"] == "sqlserver"
      && "host" in p.params && p.params["host"] == "db.local"
      && "port" in p.params && p.params["port"] == "1435"
      && "dbname" in p.params && p.params["dbname"] == "app"
      && "sql" in p.params && p.params["sql"] == "a.sql"
      && "username" !in p.params && "password" !in p.params
  {
    FlagKey(args[0], "engine");
    FlagKey(args[2], "host");
    FlagKey(args[4], "port");
    FlagKey(args[6], "dbname");
    FlagKey(args[8], "sql");
    FivePairs(args);
  }

  /** With `-port 1435` the SQL Server URL carries that port and the database name. */
  lemma SqlServerUrl(args: seq<string>)
    requires |args| == 10 && args[0] == "-engine" && args[1] == "sqlserver" && args[2] == "-host" && args[3] == "db.local"
    requires args[4] == "-port" && args[5] == "1435" && args[6] == "-dbname" && args[7] == "app"
    requires args[8] == "-sql" && args[9] == "a.sql"
    ensures BuildJdbcUrl(Settle(ParseArgs(args))) == Success("jdbc:sqlserver://db.local:1435;databaseName=app")
  {
    SqlServerParams(args);
    var p := ParseArgs(args);
    var e, h, d, q := p.params["engine"], p.params["host"], p.params["dbname"], p.params["sql"];
    EngineSqlServer(e);
    PortParsed(p.params["port"]);
    SettleComplete(p, e, h, d, q);
    PortTexts(1435);
    SqlServerText(h, IntToString(1435), d);
  }
}
