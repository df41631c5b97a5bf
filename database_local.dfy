/** The local database manager: a connection field set by `__enter__`,
    statement execution that fetches rows for reads and commits writes, and the
    introspection that turns `SHOW TABLES` and `DESCRIBE` output into an
    insertion-ordered table-to-columns dictionary. */
module LocalDatabase {
  import opened Base
  import opened Text
  import opened Dicts
  import opened Driver
  import opened LocalConfiguration

  /** One `DESCRIBE` row after renaming: Field, Type, Null, Key, Default and
      Extra become name, type, null, key, default and extra. */
  datatype ColumnInfo = ColumnInfo(name: Value, columnType: Value, nullable: Value, key: Value, defaultValue: Value, extra: Value)

  /** Table name to its columns, in `SHOW TABLES` order. */
  type TableInfo = Dict<Value, seq<ColumnInfo>>

  const NoConnection := Runtime("No active database connection. Use within context manager.")
  const ExecutionFailurePrefix := "SQL execution failed: "
  const TableInfoFailurePrefix := "Failed to get table info: "
  const DatabaseInfoFailurePrefix := "Failed to get database info: "

  /** The leading words that make a statement a read. */
  const ReadVerbs := ["SELECT", "SHOW", "DESCRIBE", "EXPLAIN"]

  /** Reads are recognised by prefix after trimming and upper-casing, so any
      text that merely begins with one of the four words counts. */
  predicate IsRead(query: string) {
    StartsWithAny(Upper(Strip(query)), ReadVerbs)
  }

  /** The classification does not depend on letter case. */
  lemma ReadIgnoresCase(query: string)
    ensures IsRead(Lower(query)) == IsRead(query)
  {
    UpperStripLower(query);
  }

  /** Any text that begins with one of the four words is a read, whatever
      follows the word (so `SHOWCASE` counts). */
  lemma ReadByPrefix(verb: string, rest: string)
    requires verb in ReadVerbs
    ensures IsRead(verb + rest)
  {
    var i :| 0 <= i < |ReadVerbs| && ReadVerbs[i] == verb;
    UpperStripKeepsWord(verb, rest);
    StartsWithMember(Upper(Strip(verb + rest)), ReadVerbs, i);
  }

  /** Whatever follows `SELECT * FROM `, the statement is a read. */
  lemma SelectFromIsRead(tail: string)
    ensures IsRead("SELECT * FROM " + tail)
  {
    assert "SELECT * FROM " + tail == "SELECT" + (" * FROM " + tail);
    ReadByPrefix("SELECT", " * FROM " + tail);
  }

  /** The single row a write statement returns. */
  function AffectedRow(rowcount: int): (row: Row)
    ensures Keys(row) == ["affected_rows"] && Get(row, "affected_rows") == Some(Int(rowcount))
  {
    [("affected_rows", Int(rowcount))]
  }

  /** What `execute_query` returns for a statement the server answered with `o`. */
  function ExecuteResult(query: string, o: Outcome): (r: Result<seq<Row>, Exc>)
    ensures r.Err? <==> o.Failed?
    ensures o.Failed? ==> r.error == Runtime(ExecutionFailurePrefix + o.message)
    ensures o.Executed? && IsRead(query) ==> r.value == DictRows(o.columns, o.tuples)
    ensures o.Executed? && !IsRead(query) ==> r.value == [AffectedRow(o.rowcount)]
  {
    match o
    case Failed(m) => Err(Runtime(ExecutionFailurePrefix + m))
    case Executed(columns, tuples, rowcount) =>
      if IsRead(query) then Ok(DictRows(columns, tuples)) else Ok([AffectedRow(rowcount)])
  }

  /** Whether `execute_query` commits after the server answered `o`. */
  predicate Commits(query: string, o: Outcome) {
    o.Executed? && !IsRead(query)
  }

  /** The keys `get_table_info` reads from a `DESCRIBE` row, in the order
      the dictionary display evaluates them. */
  const ColumnKeys := ["Field", "Type", "Null", "Key", "Default", "Extra"]

  /** The row has every key of `ColumnKeys` before index `i`. */
  predicate FoundBefore(row: Row, i: nat)
    requires i <= |ColumnKeys|
  {
    forall j :: 0 <= j < i ==> Get(row, ColumnKeys[j]).Some?
  }

  /** The renamed column of one `DESCRIBE` row, or the first of Field, Type,
      Null, Key, Default and Extra that it lacks (the `KeyError` of the
      source). */
  function Column(row: Row): (r: Result<ColumnInfo, string>)
    ensures r.Err? ==> Get(row, r.error) == None
    ensures r.Ok? ==> && Some(r.value.name) == Get(row, "Field")
                      && Some(r.value.columnType) == Get(row, "Type")
                      && Some(r.value.nullable) == Get(row, "Null")
                      && Some(r.value.key) == Get(row, "Key")
                      && Some(r.value.defaultValue) == Get(row, "Default")
                      && Some(r.value.extra) == Get(row, "Extra")
  {
    var name, columnType, nullable := Get(row, "Field"), Get(row, "Type"), Get(row, "Null");
    var key, defaultValue, extra := Get(row, "Key"), Get(row, "Default"), Get(row, "Extra");
    if name.None? then Err("Field")
    else if columnType.None? then Err("Type")
    else if nullable.None? then Err("Null")
    else if key.None? then Err("Key")
    else if defaultValue.None? then Err("Default")
    else if extra.None? then Err("Extra")
    else Ok(ColumnInfo(name.value, columnType.value, nullable.value, key.value, defaultValue.value, extra.value))
  }

  /** The row renames exactly when it has all six keys; otherwise the error
      names the first key it lacks. */
  lemma ColumnSpec(row: Row)
    ensures Column(row).Ok? <==> forall k :: k in ColumnKeys ==> Get(row, k).Some?
    ensures Column(row).Err? ==>
              exists i :: 0 <= i < |ColumnKeys| && ColumnKeys[i] == Column(row).error && FoundBefore(row, i)
  {
    var ks := ColumnKeys;
    var i: nat := if Get(row, ks[0]).None? then 0 else if Get(row, ks[1]).None? then 1
                  else if Get(row, ks[2]).None? then 2 else if Get(row, ks[3]).None? then 3
                  else if Get(row, ks[4]).None? then 4 else if Get(row, ks[5]).None? then 5 else 6;
    assert FoundBefore(row, i);
    if i < 6 {
      assert Column(row) == Err(ks[i]);
      assert ks[i] in ks && Get(row, ks[i]).None?;
    } else {
      assert Column(row).Ok?;
      forall k | k in ks ensures Get(row, k).Some? {
        var j :| 0 <= j < 6 && ks[j] == k;
      }
    }
  }

  /** The columns of one table as `get_table_info` formats them. */
  function DescribeTable(respond: Request -> Outcome, name: Value): Result<seq<ColumnInfo>, Exc> {
    match respond(DescribeRequest(name))
    case Failed(m) => Err(Runtime(TableInfoFailurePrefix + m))
    case Executed(columns, tuples, _) =>
      match MapAll(Column, DictRows(columns, tuples), [])
      case Err(k) => Err(MissingKey(k))
      case Ok(cs) => Ok(cs)
  }

  /** Processes the `SHOW TABLES` rows in order, assigning each table's
      columns into `acc`. */
  function DescribeTables(describe: Value -> Result<seq<ColumnInfo>, Exc>, key: string, tables: seq<Row>, acc: TableInfo): Result<TableInfo, Exc>
    decreases |tables|
  {
    if tables == [] then Ok(acc)
    else match Get(tables[0], key)
      case None => Err(MissingKey(key))
      case Some(name) =>
        match describe(name)
        case Err(e) => Err(e)
        case Ok(cs) => DescribeTables(describe, key, tables[1..], Put(acc, name, cs))
  }

  /** `DescribeTable` against one server. */
  function Describer(respond: Request -> Outcome): Value -> Result<seq<ColumnInfo>, Exc> {
    name => DescribeTable(respond, name)
  }

  /** The column of a `SHOW TABLES` row that holds the table name. */
  function TableKey(dbName: string): string {
    "Tables_in_" + dbName
  }

  /** What `get_table_info` returns on an active connection. */
  function TableInfoOf(respond: Request -> Outcome, dbName: string): Result<TableInfo, Exc> {
    match respond(Request(ShowTables, None))
    case Failed(m) => Err(Runtime(TableInfoFailurePrefix + m))
    case Executed(columns, tuples, _) => DescribeTables(Describer(respond), TableKey(dbName), DictRows(columns, tuples), [])
  }

  /** The table names of `SHOW TABLES` rows that all carry `key`. */
  function Names(tables: seq<Row>, key: string): (names: seq<Value>)
    requires forall i :: 0 <= i < |tables| ==> key in Keys(tables[i])
    ensures |names| == |tables| && forall i :: 0 <= i < |tables| ==> Some(names[i]) == Get(tables[i], key)
  {
    if tables == [] then [] else [Get(tables[0], key).value] + Names(tables[1..], key)
  }

  /** On success every `SHOW TABLES` row named its table and every table
      was described. */
  lemma {:induction false} DescribeNamed(describe: Value -> Result<seq<ColumnInfo>, Exc>, key: string, tables: seq<Row>, acc: TableInfo)
    requires DescribeTables(describe, key, tables, acc).Ok?
    ensures forall i :: 0 <= i < |tables| ==> key in Keys(tables[i]) && describe(Get(tables[i], key).value).Ok?
    decreases |tables|
  {
    if tables != [] {
      var name := Get(tables[0], key).value;
      DescribeNamed(describe, key, tables[1..], Put(acc, name, describe(name).value));
      forall i | 0 <= i < |tables| ensures key in Keys(tables[i]) && describe(Get(tables[i], key).value).Ok? {
        if i > 0 {
          assert tables[i] == tables[1..][i - 1];
        }
      }
    }
  }

  /** The tables keep their first-appearance order: a repeated name keeps
      its first place. */
  lemma {:induction false} DescribeKeys(describe: Value -> Result<seq<ColumnInfo>, Exc>, key: string, tables: seq<Row>, acc: TableInfo)
    requires DescribeTables(describe, key, tables, acc).Ok?
    ensures forall i :: 0 <= i < |tables| ==> key in Keys(tables[i])
    ensures Keys(DescribeTables(describe, key, tables, acc).value) == AddKeys(Keys(acc), Names(tables, key))
    decreases |tables|
  {
    DescribeNamed(describe, key, tables, acc);
    if tables != [] {
      var name := Get(tables[0], key).value;
      PutSpec(acc, name, describe(name).value);
      DescribeKeys(describe, key, tables[1..], Put(acc, name, describe(name).value));
      assert Names(tables, key) == [name] + Names(tables[1..], key);
    }
  }

  /** Each named table maps to its described columns (for a repeated name,
      the later assignment); anything else keeps its value in `acc`. */
  lemma {:induction false} DescribeGet(describe: Value -> Result<seq<ColumnInfo>, Exc>, key: string, tables: seq<Row>, acc: TableInfo, n: Value)
    requires DescribeTables(describe, key, tables, acc).Ok?
    ensures forall i :: 0 <= i < |tables| ==> key in Keys(tables[i])
    ensures n in Names(tables, key) ==> describe(n).Ok?
    ensures Get(DescribeTables(describe, key, tables, acc).value, n) ==
            if n in Names(tables, key) then Some(describe(n).value) else Get(acc, n)
    decreases |tables|
  {
    DescribeNamed(describe, key, tables, acc);
    if tables != [] {
      var name := Get(tables[0], key).value;
      PutSpec(acc, name, describe(name).value);
      DescribeGet(describe, key, tables[1..], Put(acc, name, describe(name).value), n);
      assert Names(tables, key) == [name] + Names(tables[1..], key);
    }
  }

  /** `get_table_info` in terms of the server's answers: it succeeds exactly
      with the tables of `SHOW TABLES` in first-appearance order, each mapped
      to its `DESCRIBE` columns. */
  lemma TableInfoSpec(respond: Request -> Outcome, dbName: string, tables: seq<Row>)
    requires TableInfoOf(respond, dbName).Ok?
    requires respond(Request(ShowTables, None)).Executed?
    requires tables == DictRows(respond(Request(ShowTables, None)).columns, respond(Request(ShowTables, None)).tuples)
    ensures forall i :: 0 <= i < |tables| ==> TableKey(dbName) in Keys(tables[i])
    ensures Keys(TableInfoOf(respond, dbName).value) == AddKeys([], Names(tables, TableKey(dbName)))
  {
    DescribeKeys(Describer(respond), TableKey(dbName), tables, []);
  }

  lemma TableInfoGet(respond: Request -> Outcome, dbName: string, tables: seq<Row>, n: Value)
    requires TableInfoOf(respond, dbName).Ok?
    requires respond(Request(ShowTables, None)).Executed?
    requires tables == DictRows(respond(Request(ShowTables, None)).columns, respond(Request(ShowTables, None)).tuples)
    ensures forall i :: 0 <= i < |tables| ==> TableKey(dbName) in Keys(tables[i])
    ensures n in Names(tables, TableKey(dbName)) ==> DescribeTable(respond, n).Ok? && Get(TableInfoOf(respond, dbName).value, n) == Some(DescribeTable(respond, n).value)
    ensures n !in Names(tables, TableKey(dbName)) ==> Get(TableInfoOf(respond, dbName).value, n) == None
  {
    DescribeGet(Describer(respond), TableKey(dbName), tables, [], n);
  }

  /** One step of `Describe`: the table at position `i`. */
  lemma DescribeAt(describe: Value -> Result<seq<ColumnInfo>, Exc>, key: string, tables: seq<Row>, i: nat, acc: TableInfo)
    requires i < |tables|
    ensures Get(tables[i], key).None? ==> DescribeTables(describe, key, tables[i..], acc) == Err(MissingKey(key))
    ensures Get(tables[i], key).Some? && describe(Get(tables[i], key).value).Err? ==>
              DescribeTables(describe, key, tables[i..], acc) == Err(describe(Get(tables[i], key).value).error)
    ensures Get(tables[i], key).Some? && describe(Get(tables[i], key).value).Ok? ==>
              DescribeTables(describe, key, tables[i..], acc) ==
              DescribeTables(describe, key, tables[i + 1..], Put(acc, Get(tables[i], key).value, describe(Get(tables[i], key).value).value))
  {
    assert tables[i..][0] == tables[i] && tables[i..][1..] == tables[i + 1..];
  }

  /** The answer `test_connection` looks for: a first row whose first value
      is 1. */
  predicate AnswersOne(o: Outcome) {
    o.Executed? && |o.tuples| > 0 && |o.tuples[0]| > 0 && o.tuples[0][0] == Int(1)
  }

  const SelectOne := Request("SELECT 1", None)

  /** `get_database_info()`: the server version, the current database, the
      number of tables and the connection display. */
  datatype DatabaseInfo = DatabaseInfo(mysqlVersion: Value, currentDatabase: Value, tableCount: nat, connection: Dict<string, string>)

  const VersionQuery := "SELECT VERSION() AS version"
  const CurrentDbQuery := "SELECT DATABASE() AS current_db"

  /** `cursor.fetchone()[field]` on a dictionary cursor. */
  function FetchOneField(columns: seq<string>, tuples: seq<seq<Value>>, field: string): (r: Result<Value, Exc>)
    ensures r.Ok? ==> tuples != [] && Get(DictRows(columns, tuples)[0], field) == Some(r.value)
    ensures tuples == [] ==> r == Err(NotSubscriptable)
    ensures tuples != [] ==> var got := Get(DictRows(columns, tuples)[0], field);
                             r == if got.Some? then Ok(got.value) else Err(MissingKey(field))
  {
    var rows := DictRows(columns, tuples);
    if rows == [] then Err(NotSubscriptable)
    else match Get(rows[0], field)
      case None => Err(MissingKey(field))
      case Some(v) => Ok(v)
  }

  /** One `execute` and `fetchone()[field]` of `get_database_info`. */
  function FetchField(respond: Request -> Outcome, query: string, field: string): Result<Value, Exc> {
    match respond(Request(query, None))
    case Failed(m) => Err(Runtime(DatabaseInfoFailurePrefix + m))
    case Executed(columns, tuples, _) => FetchOneField(columns, tuples, field)
  }

  /** What `get_database_info` returns on an active connection. */
  function DatabaseInfoOf(respond: Request -> Outcome, config: LocalConfig): (r: Result<DatabaseInfo, Exc>)
    ensures r.Ok? ==> r.value.connection == ConnectionInfo(config)
    ensures r.Ok? ==> && Ok(r.value.mysqlVersion) == FetchField(respond, VersionQuery, "version")
                      && Ok(r.value.currentDatabase) == FetchField(respond, CurrentDbQuery, "current_db")
                      && respond(Request(ShowTables, None)).Executed?
                      && r.value.tableCount == |respond(Request(ShowTables, None)).tuples|
    ensures r.Ok? <==> && FetchField(respond, VersionQuery, "version").Ok?
                       && FetchField(respond, CurrentDbQuery, "current_db").Ok?
                       && respond(Request(ShowTables, None)).Executed?
    ensures FetchField(respond, VersionQuery, "version").Err? ==> r == Err(FetchField(respond, VersionQuery, "version").error)
    ensures FetchField(respond, VersionQuery, "version").Ok? && FetchField(respond, CurrentDbQuery, "current_db").Err? ==>
              r == Err(FetchField(respond, CurrentDbQuery, "current_db").error)
    ensures FetchField(respond, VersionQuery, "version").Ok? && FetchField(respond, CurrentDbQuery, "current_db").Ok?
            && respond(Request(ShowTables, None)).Failed? ==>
              r == Err(Runtime(DatabaseInfoFailurePrefix + respond(Request(ShowTables, None)).message))
  {
    match FetchField(respond, VersionQuery, "version")
    case Err(e) => Err(e)
    case Ok(version) =>
      match FetchField(respond, CurrentDbQuery, "current_db")
      case Err(e) => Err(e)
      case Ok(db) =>
        match respond(Request(ShowTables, None))
        case Failed(m) => Err(Runtime(DatabaseInfoFailurePrefix + m))
        case Executed(_, tuples, _) => Ok(DatabaseInfo(version, db, |tuples|, ConnectionInfo(config)))
  }

  /** The column-formatting loop of `get_table_info`: the renamed rows in
      order, or the first field missing from the first row that lacks one. */
  method FormatColumns(rows: seq<Row>) returns (r: Result<seq<ColumnInfo>, string>)
    ensures r == MapAll(Column, rows, [])
  {
    var formatted: seq<ColumnInfo> := [];
    var j := 0;
    while j < |rows|
      invariant 0 <= j <= |rows|
      invariant MapAll(Column, rows, []) == MapAll(Column, rows[j..], formatted)
    {
      var col := Column(rows[j]);
      if col.Err? {
        return Err(col.error);
      }
      formatted := formatted + [col.value];
      j := j + 1;
    }
    return Ok(formatted);
  }

  class LocalDatabaseManager {
    const config: LocalConfig
    const server: Server
    var connection: Connection?

    ghost predicate Valid()
      reads this
    {
      connection != null ==> connection.server == server
    }

    /** `self.connection and self.connection.is_connected()` */
    predicate Active()
      reads this, connection
    {
      connection != null && connection.connected
    }

    constructor (config: LocalConfig, server: Server)
      ensures Valid() && this.config == config && this.server == server && connection == null
    {
      this.config := config;
      this.server := server;
      connection := null;
    }

    /** `__enter__`: opens a fresh connection into the field; when connecting
        raises, the field keeps its old value. */
    method Enter() returns (r: Result<(), Exc>)
      requires Valid()
      modifies this, server`open
      ensures Valid()
      ensures server.refusal.Some? ==> && r == Err(ConnectionFailure(ConnectFailurePrefix + server.refusal.value))
                                       && connection == old(connection) && server.open == old(server.open)
      ensures server.refusal.None? ==> && r == Ok(()) && connection != null && fresh(connection)
                                       && connection.connected && server.open == old(server.open) + 1
    {
      var attempt := GetDatabaseConnection(config, server);
      match attempt
      case Err(e) => r := Err(e);
      case Ok(c) =>
        connection := c;
        r := Ok(());
    }

    /** `__exit__`: closes the connection if it is still connected, and leaves
        the field pointing at it. */
    method Exit()
      requires Valid()
      modifies connection, server`open
      ensures Valid() && connection == old(connection)
      ensures old(Active()) ==> !connection.connected && server.open == old(server.open) - 1
      ensures !old(Active()) ==> server.open == old(server.open)
      ensures !old(Active()) && connection != null ==> connection.connected == old(connection.connected)
    {
      if connection != null && connection.connected {
        connection.Close();
      }
    }

    /** `execute_query`: on an active connection, sends the statement once,
        closes its cursor on every path, and commits exactly the writes that
        ran. */
    method ExecuteQuery(query: string) returns (r: Result<seq<Row>, Exc>)
      requires Valid()
      modifies server`log, server`cursors, server`commits
      ensures !Active() ==> && r == Err(NoConnection) && server.log == old(server.log)
                            && server.commits == old(server.commits) && server.cursors == old(server.cursors)
      ensures Active() ==> var o := server.respond(Request(query, None));
                           && r == ExecuteResult(query, o)
                           && server.log == old(server.log) + [Request(query, None)]
                           && server.cursors == old(server.cursors)
                           && server.commits == old(server.commits) + (if Commits(query, o) then 1 else 0)
    {
      if connection == null || !connection.connected {
        return Err(NoConnection);
      }
      connection.OpenCursor();
      var o := connection.Execute(query, None);
      var read := IsRead(query);
      if o.Failed? {
        r := Err(Runtime(ExecutionFailurePrefix + o.message));
      } else if read {
        r := Ok(DictRows(o.columns, o.tuples));
      } else {
        connection.Commit();
        r := Ok([AffectedRow(o.rowcount)]);
      }
      connection.CloseCursor();
    }

    /** The body of `get_table_info`'s loop for one table: `DESCRIBE` it and
        format its columns. */
    method DescribeOne(name: Value) returns (r: Result<seq<ColumnInfo>, Exc>)
      requires Valid() && Active()
      modifies server`log
      ensures r == DescribeTable(server.respond, name)
      ensures server.log == old(server.log) + [DescribeRequest(name)]
    {
      var described := connection.Execute("DESCRIBE " + Show(name), None);
      if described.Failed? {
        return Err(Runtime(TableInfoFailurePrefix + described.message));
      }
      var formatted := FormatColumns(DictRows(described.columns, described.tuples));
      if formatted.Err? {
        return Err(MissingKey(formatted.error));
      }
      return Ok(formatted.value);
    }

    /** The loop of `get_table_info` over the `SHOW TABLES` rows: each row
        names a table, which is described and assigned into the result. */
    method DescribeAll(tables: seq<Row>, tableKey: string) returns (r: Result<TableInfo, Exc>)
      requires Valid() && Active()
      modifies server`log
      ensures r == DescribeTables(Describer(server.respond), tableKey, tables, [])
      ensures old(server.log) <= server.log
    {
      var tablesInfo: TableInfo := [];
      var i := 0;
      while i < |tables|
        invariant 0 <= i <= |tables|
        invariant DescribeTables(Describer(server.respond), tableKey, tables, []) ==
                  DescribeTables(Describer(server.respond), tableKey, tables[i..], tablesInfo)
        invariant old(server.log) <= server.log
      {
        DescribeAt(Describer(server.respond), tableKey, tables, i, tablesInfo);
        var tableName := Get(tables[i], tableKey);
        if tableName.None? {
          return Err(MissingKey(tableKey));
        }
        var described := DescribeOne(tableName.value);
        if described.Err? {
          return Err(described.error);
        }
        tablesInfo := Put(tablesInfo, tableName.value, described.value);
        i := i + 1;
      }
      return Ok(tablesInfo);
    }

    /** `get_table_info`: the table dictionary the server's answers determine;
        the first statement is `SHOW TABLES`, nothing is committed and the
        cursor is closed on every path. */
    method GetTableInfo() returns (r: Result<TableInfo, Exc>)
      requires Valid()
      modifies server`log, server`cursors
      ensures !Active() ==> r == Err(NoConnection) && server.log == old(server.log) && server.cursors == old(server.cursors)
      ensures Active() ==> && r == TableInfoOf(server.respond, config.dbName)
                           && server.cursors == old(server.cursors)
                           && old(server.log) + [Request(ShowTables, None)] <= server.log
    {
      if connection == null || !connection.connected {
        return Err(NoConnection);
      }
      connection.OpenCursor();
      var shown := connection.Execute(ShowTables, None);
      if shown.Failed? {
        r := Err(Runtime(TableInfoFailurePrefix + shown.message));
      } else {
        r := DescribeAll(DictRows(shown.columns, shown.tuples), TableKey(config.dbName));
      }
      connection.CloseCursor();
    }

    /** `test_connection`: true exactly when a fresh connection answers
        `SELECT 1` with 1. That connection is always closed; its cursor is
        closed unless the statement itself raised. */
    method TestConnection() returns (ok: bool)
      modifies server`open, server`cursors, server`log
      ensures ok == (server.refusal.None? && AnswersOne(server.respond(SelectOne)))
      ensures server.open == old(server.open)
      ensures server.cursors == old(server.cursors) + (if server.refusal.None? && server.respond(SelectOne).Failed? then 1 else 0)
    {
      var attempt := GetDatabaseConnection(config, server);
      if attempt.Err? {
        return false;
      }
      var conn := attempt.value;
      conn.OpenCursor();
      var o := conn.Execute("SELECT 1", None);
      if o.Failed? {
        conn.Close();
        return false;
      }
      var first := if o.tuples == [] then None else Some(o.tuples[0]);
      conn.CloseCursor();
      conn.Close();
      match first
      case None => ok := false;
      case Some(t) => ok := |t| > 0 && t[0] == Int(1);
    }

    /** One statement of `get_database_info` and the named field of its
        first row. */
    method Fetch(query: string, field: string) returns (r: Result<Value, Exc>)
      requires Valid() && Active()
      modifies server`log
      ensures r == FetchField(server.respond, query, field)
      ensures server.log == old(server.log) + [Request(query, None)]
    {
      var o := connection.Execute(query, None);
      if o.Failed? {
        return Err(Runtime(DatabaseInfoFailurePrefix + o.message));
      }
      r := FetchOneField(o.columns, o.tuples, field);
    }

    /** `get_database_info`: up to three statements on an active connection,
        the cursor closed on every path. */
    method GetDatabaseInfo() returns (r: Result<DatabaseInfo, Exc>)
      requires Valid()
      modifies server`log, server`cursors
      ensures !Active() ==> r == Err(NoConnection) && server.log == old(server.log) && server.cursors == old(server.cursors)
      ensures Active() ==> r == DatabaseInfoOf(server.respond, config) && server.cursors == old(server.cursors)
    {
      if connection == null || !connection.connected {
        return Err(NoConnection);
      }
      connection.OpenCursor();
      r := Err(NoConnection);
      var version := Fetch(VersionQuery, "version");
      if version.Err? {
        r := Err(version.error);
      } else {
        var db := Fetch(CurrentDbQuery, "current_db");
        if db.Err? {
          r := Err(db.error);
        } else {
          var shown := connection.Execute(ShowTables, None);
          if shown.Failed? {
            r := Err(Runtime(DatabaseInfoFailurePrefix + shown.message));
          } else {
            r := Ok(DatabaseInfo(version.value, db.value, |shown.tuples|, ConnectionInfo(config)));
          }
        }
      }
      connection.CloseCursor();
    }
  }
}
