/** The remote database manager: unlike the local one it connects on demand
    when no connection is active, passes query parameters only when there are
    some, answers reads (`SELECT`, `SHOW`, `DESCRIBE`; not `EXPLAIN`) with
    column names and raw tuples, and reads table columns from the first field
    of each `DESCRIBE` tuple. */
module RemoteDatabase {
  import opened Base
  import opened Text
  import opened Dicts
  import opened Driver
  import LocalDatabase

  const ConnectFailurePrefix := "Failed to connect to MySQL database: "
  const DatabaseErrorPrefix := "Database error: "
  const TableInfoErrorPrefix := "Error getting table info: "

  /** The leading words that make a statement a read here. */
  const ReadVerbs := ["SELECT", "SHOW", "DESCRIBE"]

  predicate IsRead(query: string) {
    StartsWithAny(Upper(Strip(query)), ReadVerbs)
  }

  /** Every read of this manager is a read of the local manager too. */
  lemma ReadIsLocalRead(query: string)
    requires IsRead(query)
    ensures LocalDatabase.IsRead(query)
  {
    StartsWithAnyMore(Upper(Strip(query)), ReadVerbs, ["EXPLAIN"]);
    assert ReadVerbs + ["EXPLAIN"] == LocalDatabase.ReadVerbs;
  }

  /** The converse fails: an `EXPLAIN` statement is a read for the local
      manager and a write (committed, answering a row count) for this one. */
  lemma ExplainIsOnlyLocalRead(rest: string)
    ensures LocalDatabase.IsRead("EXPLAIN" + rest)
    ensures !IsRead("EXPLAIN" + rest)
  {
    LocalDatabase.ReadByPrefix("EXPLAIN", rest);
    ExplainIsNotRead(rest);
  }

  lemma ExplainIsNotRead(rest: string)
    ensures !IsRead("EXPLAIN" + rest)
  {
    UpperStripKeepsWord("EXPLAIN", rest);
    ExplainMatchesNoVerb(Upper(Strip("EXPLAIN" + rest)));
  }

  lemma ExplainMatchesNoVerb(t: string)
    requires StartsWith(t, "EXPLAIN")
    ensures !StartsWithAny(t, ReadVerbs)
  {
    assert t[0] == 'E';
    StartsWithNoneFirst(t, ReadVerbs);
  }

  /** Any text that begins with one of the three words is a read. */
  lemma ReadByPrefix(verb: string, rest: string)
    requires verb in ReadVerbs
    ensures IsRead(verb + rest)
  {
    var i :| 0 <= i < |ReadVerbs| && ReadVerbs[i] == verb;
    UpperStripKeepsWord(verb, rest);
    StartsWithMember(Upper(Strip(verb + rest)), ReadVerbs, i);
  }

  /** `execute_query`'s two result shapes: `{"columns", "data"}` for reads,
      `{"affected_rows"}` otherwise. */
  datatype QueryResult =
    | Table(columns: seq<string>, data: seq<seq<Value>>)
    | Affected(rows: int)

  /** The driver call for `query` and `params`: the parameters go along only
      when there are some (an empty tuple is falsy, like `None`). */
  function QueryRequest(query: string, params: seq<Value>): (req: Request)
    ensures req.sql == query
    ensures req.params.Some? <==> params != []
    ensures req.params.Some? ==> req.params.value == params
  {
    Request(query, if params == [] then None else Some(params))
  }

  /** What `execute_query` returns once the server answered `o`. */
  function QueryResultOf(query: string, o: Outcome): (r: Result<QueryResult, Exc>)
    ensures r.Err? <==> o.Failed?
    ensures o.Failed? ==> r == Err(Raised(DatabaseErrorPrefix + o.message))
    ensures o.Executed? && IsRead(query) ==> r == Ok(Table(o.columns, o.tuples))
    ensures o.Executed? && !IsRead(query) ==> r == Ok(Affected(o.rowcount))
  {
    match o
    case Failed(m) => Err(Raised(DatabaseErrorPrefix + m))
    case Executed(columns, tuples, rowcount) =>
      if IsRead(query) then Ok(Table(columns, tuples)) else Ok(Affected(rowcount))
  }

  /** Whether `execute_query` commits after the server answered `o`. */
  predicate Commits(query: string, o: Outcome) {
    o.Executed? && !IsRead(query)
  }

  /** A preview is always a read, whatever the table name holds. */
  lemma PreviewIsRead(table: string, limit: int)
    ensures IsRead(PreviewQuery(table, limit))
  {
    var tail := table + " LIMIT " + IntToString(limit);
    assert PreviewQuery(table, limit) == "SELECT * FROM " + tail;
    SelectFromIsRead(tail);
  }

  /** Whatever follows `SELECT * FROM `, the statement is a read. */
  lemma SelectFromIsRead(tail: string)
    ensures IsRead("SELECT * FROM " + tail)
  {
    assert "SELECT * FROM " + tail == "SELECT" + (" * FROM " + tail);
    ReadByPrefix("SELECT", " * FROM " + tail);
  }

  /** Table name to the names of its columns, in `SHOW TABLES` order. */
  type TableInfo = Dict<Value, seq<Value>>

  /** `for (table_name,) in tables`: a tuple of any other width raises. */
  function TableName(t: seq<Value>): (r: Result<Value, Exc>)
    ensures r.Ok? <==> |t| == 1
    ensures r.Ok? ==> r.value == t[0]
    ensures r.Err? ==> r.error == BadUnpack(|t|)
  {
    if |t| == 1 then Ok(t[0]) else Err(BadUnpack(|t|))
  }

  /** `col[0]` */
  function FirstField(t: seq<Value>): (r: Result<Value, Exc>)
    ensures r.Ok? <==> t != []
    ensures r.Ok? ==> r.value == t[0]
    ensures r.Err? ==> r.error == IndexOutOfRange
  {
    if t == [] then Err(IndexOutOfRange) else Ok(t[0])
  }

  /** The column names of one table: the first field of each `DESCRIBE`
      tuple. */
  function DescribeColumns(respond: Request -> Outcome, name: Value): Result<seq<Value>, Exc> {
    match respond(DescribeRequest(name))
    case Failed(m) => Err(Raised(TableInfoErrorPrefix + m))
    case Executed(_, tuples, _) => MapAll(FirstField, tuples, [])
  }

  /** A described table lists the first field of every `DESCRIBE` tuple, in
      order; it fails with the driver's message rewrapped, or with
      `IndexError` exactly when some tuple is empty. */
  lemma DescribeColumnsSpec(respond: Request -> Outcome, name: Value)
    ensures respond(DescribeRequest(name)).Failed? ==>
              DescribeColumns(respond, name) == Err(Raised(TableInfoErrorPrefix + respond(DescribeRequest(name)).message))
    ensures respond(DescribeRequest(name)).Executed? ==>
              var tuples := respond(DescribeRequest(name)).tuples;
              && (DescribeColumns(respond, name).Ok? <==> forall i :: 0 <= i < |tuples| ==> tuples[i] != [])
              && (DescribeColumns(respond, name).Ok? ==>
                    var cs := DescribeColumns(respond, name).value;
                    |cs| == |tuples| && forall i :: 0 <= i < |tuples| ==> cs[i] == tuples[i][0])
              && (DescribeColumns(respond, name).Err? ==> DescribeColumns(respond, name).error == IndexOutOfRange)
  {
    var o := respond(DescribeRequest(name));
    if o.Executed? {
      var r := MapAll(FirstField, o.tuples, []);
      if r.Ok? {
        MapAllOk(FirstField, o.tuples, []);
      } else {
        MapAllErr(FirstField, o.tuples, []);
      }
    }
  }

  /** Processes the `SHOW TABLES` tuples in order, assigning each table's
      columns into `acc`. */
  function DescribeTables(describe: Value -> Result<seq<Value>, Exc>, tables: seq<seq<Value>>, acc: TableInfo): Result<TableInfo, Exc>
    decreases |tables|
  {
    if tables == [] then Ok(acc)
    else match TableName(tables[0])
      case Err(e) => Err(e)
      case Ok(name) =>
        match describe(name)
        case Err(e) => Err(e)
        case Ok(cs) => DescribeTables(describe, tables[1..], Put(acc, name, cs))
  }

  /** `DescribeColumns` against one server. */
  function Describer(respond: Request -> Outcome): Value -> Result<seq<Value>, Exc> {
    name => DescribeColumns(respond, name)
  }

  /** What `get_table_info` returns once a connection is active. */
  function TableInfoOf(respond: Request -> Outcome): Result<TableInfo, Exc> {
    match respond(Request(ShowTables, None))
    case Failed(m) => Err(Raised(TableInfoErrorPrefix + m))
    case Executed(_, tuples, _) => DescribeTables(Describer(respond), tuples, [])
  }

  /** The table names of one-field `SHOW TABLES` tuples. */
  function Names(tables: seq<seq<Value>>): (names: seq<Value>)
    requires forall i :: 0 <= i < |tables| ==> |tables[i]| == 1
    ensures |names| == |tables| && forall i :: 0 <= i < |tables| ==> names[i] == tables[i][0]
  {
    if tables == [] then [] else [tables[0][0]] + Names(tables[1..])
  }

  /** On success every tuple held exactly one name and every named table was
      described. */
  lemma {:induction false} DescribeNamed(describe: Value -> Result<seq<Value>, Exc>, tables: seq<seq<Value>>, acc: TableInfo)
    requires DescribeTables(describe, tables, acc).Ok?
    ensures forall i :: 0 <= i < |tables| ==> |tables[i]| == 1 && describe(tables[i][0]).Ok?
    decreases |tables|
  {
    if tables != [] {
      var name := tables[0][0];
      DescribeNamed(describe, tables[1..], Put(acc, name, describe(name).value));
      forall i | 0 <= i < |tables| ensures |tables[i]| == 1 && describe(tables[i][0]).Ok? {
        if i > 0 {
          assert tables[i] == tables[1..][i - 1];
        }
      }
    }
  }

  /** The tables keep their first-appearance order. */
  lemma {:induction false} DescribeKeys(describe: Value -> Result<seq<Value>, Exc>, tables: seq<seq<Value>>, acc: TableInfo)
    requires DescribeTables(describe, tables, acc).Ok?
    ensures forall i :: 0 <= i < |tables| ==> |tables[i]| == 1
    ensures Keys(DescribeTables(describe, tables, acc).value) == AddKeys(Keys(acc), Names(tables))
    decreases |tables|
  {
    DescribeNamed(describe, tables, acc);
    if tables != [] {
      var name := tables[0][0];
      PutSpec(acc, name, describe(name).value);
      DescribeKeys(describe, tables[1..], Put(acc, name, describe(name).value));
      assert Names(tables) == [name] + Names(tables[1..]);
    }
  }

  /** Each named table maps to its described columns (for a repeated name,
      the later assignment); anything else keeps its value in `acc`. */
  lemma {:induction false} DescribeGet(describe: Value -> Result<seq<Value>, Exc>, tables: seq<seq<Value>>, acc: TableInfo, n: Value)
    requires DescribeTables(describe, tables, acc).Ok?
    ensures forall i :: 0 <= i < |tables| ==> |tables[i]| == 1
    ensures n in Names(tables) ==> describe(n).Ok?
    ensures Get(DescribeTables(describe, tables, acc).value, n) ==
            if n in Names(tables) then Some(describe(n).value) else Get(acc, n)
    decreases |tables|
  {
    DescribeNamed(describe, tables, acc);
    if tables != [] {
      var name := tables[0][0];
      PutSpec(acc, name, describe(name).value);
      DescribeGet(describe, tables[1..], Put(acc, name, describe(name).value), n);
      assert Names(tables) == [name] + Names(tables[1..]);
    }
  }

  /** `get_table_info` in terms of the server's answers: on success the keys
      are the `SHOW TABLES` names in first-appearance order, each mapped to
      the first fields of its `DESCRIBE` tuples, and nothing else is a key. */
  lemma TableInfoSpec(respond: Request -> Outcome, n: Value)
    requires TableInfoOf(respond).Ok?
    ensures respond(Request(ShowTables, None)).Executed?
    ensures var tables := respond(Request(ShowTables, None)).tuples;
            && (forall i :: 0 <= i < |tables| ==> |tables[i]| == 1)
            && Keys(TableInfoOf(respond).value) == AddKeys([], Names(tables))
            && (n in Names(tables) ==> DescribeColumns(respond, n).Ok? && Get(TableInfoOf(respond).value, n) == Some(DescribeColumns(respond, n).value))
            && (n !in Names(tables) ==> Get(TableInfoOf(respond).value, n) == None)
  {
    var tables := respond(Request(ShowTables, None)).tuples;
    DescribeKeys(Describer(respond), tables, []);
    DescribeGet(Describer(respond), tables, [], n);
  }

  /** One step of `DescribeTables`: the tuple at position `i`. */
  lemma DescribeAt(describe: Value -> Result<seq<Value>, Exc>, tables: seq<seq<Value>>, i: nat, acc: TableInfo)
    requires i < |tables|
    ensures TableName(tables[i]).Err? ==> DescribeTables(describe, tables[i..], acc) == Err(TableName(tables[i]).error)
    ensures TableName(tables[i]).Ok? && describe(tables[i][0]).Err? ==>
              DescribeTables(describe, tables[i..], acc) == Err(describe(tables[i][0]).error)
    ensures TableName(tables[i]).Ok? && describe(tables[i][0]).Ok? ==>
              DescribeTables(describe, tables[i..], acc) ==
              DescribeTables(describe, tables[i + 1..], Put(acc, tables[i][0], describe(tables[i][0]).value))
  {
    assert tables[i..][0] == tables[i] && tables[i..][1..] == tables[i + 1..];
  }

  /** The `col[0]` list comprehension of `get_table_info`. */
  method FirstFields(tuples: seq<seq<Value>>) returns (r: Result<seq<Value>, Exc>)
    ensures r == MapAll(FirstField, tuples, [])
  {
    var names: seq<Value> := [];
    var j := 0;
    while j < |tuples|
      invariant 0 <= j <= |tuples|
      invariant MapAll(FirstField, tuples, []) == MapAll(FirstField, tuples[j..], names)
    {
      if tuples[j] == [] {
        return Err(IndexOutOfRange);
      }
      names := names + [tuples[j][0]];
      j := j + 1;
    }
    return Ok(names);
  }

  class DatabaseManager {
    const server: Server
    var connection: Connection?

    ghost predicate Valid()
      reads this
    {
      connection != null ==> connection.server == server
    }

    /** `self.connection and self.connection.is_connected()` */
    predicate Active()
      reads this, connection
    {
      connection != null && connection.connected
    }

    constructor (server: Server)
      ensures Valid() && this.server == server && connection == null
    {
      this.server := server;
      connection := null;
    }

    /** `connect`: a fresh connection replaces the field (an earlier one is
        dropped without being closed); when connecting raises, the field
        keeps its old value. */
    method Connect() returns (r: Result<(), Exc>)
      requires Valid()
      modifies this, server`open
      ensures Valid()
      ensures server.refusal.Some? ==> && r == Err(ConnectionFailure(ConnectFailurePrefix + server.refusal.value))
                                       && connection == old(connection) && server.open == old(server.open)
      ensures server.refusal.None? ==> && r == Ok(()) && connection != null && fresh(connection)
                                       && connection.connected && server.open == old(server.open) + 1
    {
      var attempt := Driver.Connect(server);
      match attempt
      case Err(m) => r := Err(ConnectionFailure(ConnectFailurePrefix + m));
      case Ok(c) =>
        connection := c;
        r := Ok(());
    }

    /** `disconnect`: a connected connection is closed and the field cleared;
        otherwise nothing changes. */
    method Disconnect()
      requires Valid()
      modifies this, connection, server`open
      ensures Valid()
      ensures old(Active()) ==> && connection == null && !old(connection).connected
                                && server.open == old(server.open) - 1
      ensures !old(Active()) ==> && connection == old(connection) && server.open == old(server.open)
                                 && (connection != null ==> connection.connected == old(connection.connected))
    {
      if connection != null && connection.connected {
        connection.Close();
        connection := null;
      }
    }

    /** The guard of `execute_query` and `get_table_info`: connect unless a
        connection is active. */
    method EnsureConnected() returns (r: Result<(), Exc>)
      requires Valid()
      modifies this, server`open
      ensures Valid()
      ensures old(Active()) ==> r == Ok(()) && connection == old(connection) && server.open == old(server.open)
      ensures !old(Active()) && server.refusal.Some? ==>
                && r == Err(ConnectionFailure(ConnectFailurePrefix + server.refusal.value))
                && connection == old(connection) && server.open == old(server.open)
      ensures !old(Active()) && server.refusal.None? ==>
                && r == Ok(()) && connection != null && fresh(connection) && server.open == old(server.open) + 1
      ensures r.Ok? <==> Active()
    {
      if connection == null || !connection.connected {
        r := Connect();
      } else {
        r := Ok(());
      }
    }

    /** The body of `execute_query` on an active connection. */
    method Run(query: string, params: seq<Value>) returns (r: Result<QueryResult, Exc>)
      requires Valid() && Active()
      modifies server`log, server`cursors, server`commits
      ensures var o := server.respond(QueryRequest(query, params));
              && r == QueryResultOf(query, o)
              && server.log == old(server.log) + [QueryRequest(query, params)]
              && server.cursors == old(server.cursors)
              && server.commits == old(server.commits) + (if Commits(query, o) then 1 else 0)
    {
      connection.OpenCursor();
      var o;
      if params != [] {
        o := connection.Execute(query, Some(params));
      } else {
        o := connection.Execute(query, None);
      }
      var read := IsRead(query);
      if o.Failed? {
        r := Err(Raised(DatabaseErrorPrefix + o.message));
      } else if read {
        r := Ok(Table(o.columns, o.tuples));
      } else {
        connection.Commit();
        r := Ok(Affected(o.rowcount));
      }
      connection.CloseCursor();
    }

    /** `execute_query`: connects first when no connection is active (a
        refused connection raises before any statement is sent), then sends
        the statement once, commits exactly the writes that ran and closes
        the cursor on every path. */
    method ExecuteQuery(query: string, params: seq<Value>) returns (r: Result<QueryResult, Exc>)
      requires Valid()
      modifies this, server`open, server`log, server`cursors, server`commits
      ensures Valid()
      ensures old(Active()) ==> connection == old(connection) && server.open == old(server.open)
      ensures !old(Active()) && server.refusal.Some? ==>
                && r == Err(ConnectionFailure(ConnectFailurePrefix + server.refusal.value))
                && connection == old(connection) && server.open == old(server.open)
                && server.log == old(server.log) && server.cursors == old(server.cursors)
                && server.commits == old(server.commits)
      ensures !old(Active()) && server.refusal.None? ==>
                connection != null && fresh(connection) && server.open == old(server.open) + 1
      ensures old(Active()) || server.refusal.None? ==>
                var o := server.respond(QueryRequest(query, params));
                && r == QueryResultOf(query, o)
                && server.log == old(server.log) + [QueryRequest(query, params)]
                && server.cursors == old(server.cursors)
                && server.commits == old(server.commits) + (if Commits(query, o) then 1 else 0)
    {
      var connected := EnsureConnected();
      if connected.Err? {
        return Err(connected.error);
      }
      r := Run(query, params);
    }

    /** The loop of `get_table_info` over the `SHOW TABLES` tuples. */
    method DescribeAll(tables: seq<seq<Value>>) returns (r: Result<TableInfo, Exc>)
      requires Valid() && Active()
      modifies server`log
      ensures r == DescribeTables(Describer(server.respond), tables, [])
      ensures old(server.log) <= server.log
    {
      var tableInfo: TableInfo := [];
      var i := 0;
      while i < |tables|
        invariant 0 <= i <= |tables|
        invariant DescribeTables(Describer(server.respond), tables, []) ==
                  DescribeTables(Describer(server.respond), tables[i..], tableInfo)
        invariant old(server.log) <= server.log
      {
        DescribeAt(Describer(server.respond), tables, i, tableInfo);
        if |tables[i]| != 1 {
          return Err(BadUnpack(|tables[i]|));
        }
        var tableName := tables[i][0];
        var described := connection.Execute("DESCRIBE " + Show(tableName), None);
        if described.Failed? {
          return Err(Raised(TableInfoErrorPrefix + described.message));
        }
        var columns := FirstFields(described.tuples);
        if columns.Err? {
          return Err(columns.error);
        }
        tableInfo := Put(tableInfo, tableName, columns.value);
        i := i + 1;
      }
      return Ok(tableInfo);
    }

    /** `get_table_info`: connects first when needed, then builds the table
        dictionary the server's answers determine, starting with
        `SHOW TABLES`; nothing is committed and the cursor is closed on
        every path. */
    method GetTableInfo() returns (r: Result<TableInfo, Exc>)
      requires Valid()
      modifies this, server`open, server`log, server`cursors
      ensures Valid()
      ensures old(Active()) ==> connection == old(connection) && server.open == old(server.open)
      ensures !old(Active()) && server.refusal.Some? ==>
                && r == Err(ConnectionFailure(ConnectFailurePrefix + server.refusal.value))
                && connection == old(connection) && server.open == old(server.open)
                && server.log == old(server.log) && server.cursors == old(server.cursors)
      ensures !old(Active()) && server.refusal.None? ==>
                connection != null && fresh(connection) && server.open == old(server.open) + 1
      ensures old(Active()) || server.refusal.None? ==>
                && r == TableInfoOf(server.respond)
                && server.cursors == old(server.cursors)
                && old(server.log) + [Request(ShowTables, None)] <= server.log
    {
      var connected := EnsureConnected();
      if connected.Err? {
        return Err(connected.error);
      }
      connection.OpenCursor();
      var shown := connection.Execute(ShowTables, None);
      if shown.Failed? {
        r := Err(Raised(TableInfoErrorPrefix + shown.message));
      } else {
        r := DescribeAll(shown.tuples);
      }
      connection.CloseCursor();
    }

    /** `get_table_preview`: `execute_query` on the preview statement, which
        is always a read, so it never commits and answers a table. */
    method GetTablePreview(table: string, limit: int) returns (r: Result<QueryResult, Exc>)
      requires Valid()
      modifies this, server`open, server`log, server`cursors, server`commits
      ensures Valid()
      ensures server.commits == old(server.commits)
      ensures r.Ok? ==> r.value.Table?
      ensures old(Active()) || server.refusal.None? ==>
                && r == QueryResultOf(PreviewQuery(table, limit), server.respond(Request(PreviewQuery(table, limit), None)))
                && server.log == old(server.log) + [Request(PreviewQuery(table, limit), None)]
    {
      PreviewIsRead(table, limit);
      r := ExecuteQuery(PreviewQuery(table, limit), []);
    }
  }
}
