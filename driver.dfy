/** The MySQL driver boundary shared by both database managers. The server is
    an oracle: whether it accepts connections, and what it answers to each
    statement. Ghost counters record what the client does to it (connections
    and cursors opened and closed, commits issued, statements sent), so that
    the managers' contracts can say which of these each operation performs. */
module Driver {
  import opened Base
  import opened Text
  import opened Dicts

  /** A cell value as the driver returns it. */
  datatype Value = Null | Int(i: int) | Str(s: string)

  /** `str(v)` */
  function Show(v: Value): string {
    match v
    case Null => "None"
    case Int(i) => IntToString(i)
    case Str(s) => s
  }

  /** A row of a dictionary cursor: column name to value, in column order. */
  type Row = Dict<string, Value>

  /** One `cursor.execute` call; `params` is `None` when the statement is sent
      without a parameter tuple. */
  datatype Request = Request(sql: string, params: Option<seq<Value>>)

  /** The statement both managers use to list the tables. */
  const ShowTables := "SHOW TABLES"

  /** The statement that describes one table: its name interpolated as it is. */
  function DescribeRequest(name: Value): Request {
    Request("DESCRIBE " + Show(name), None)
  }

  /** `SELECT * FROM <table> LIMIT <limit>`, the statement both the remote
      manager and the query engine use for a table preview; the table name is
      interpolated without quoting. */
  function PreviewQuery(table: string, limit: int): string {
    "SELECT * FROM " + table + " LIMIT " + IntToString(limit)
  }

  /** What the server does with a statement: either it runs (with the cursor's
      column names, its result tuples and its `rowcount`) or the driver raises
      `mysql.connector.Error` with a message. */
  datatype Outcome =
    | Executed(columns: seq<string>, tuples: seq<seq<Value>>, rowcount: int)
    | Failed(message: string)

  /** `cursor(dictionary=True).fetchall()`: each tuple becomes
      `dict(zip(column_names, tuple))`. */
  function DictRows(columns: seq<string>, tuples: seq<seq<Value>>): (rows: seq<Row>)
    ensures |rows| == |tuples|
    ensures forall i :: 0 <= i < |rows| ==> rows[i] == FromPairs(Zip(columns, tuples[i]))
  {
    if tuples == [] then [] else [FromPairs(Zip(columns, tuples[0]))] + DictRows(columns, tuples[1..])
  }

  /** The Python exceptions that cross the managers' boundaries. */
  datatype Exc =
    | DriverError(message: string)        // mysql.connector.Error
    | ConnectionFailure(message: string)  // ConnectionError
    | Runtime(message: string)            // RuntimeError
    | Raised(message: string)             // Exception
    | MissingKey(key: string)             // KeyError
    | BadUnpack(got: nat)                 // ValueError from unpacking a tuple of `got` values into one name
    | IndexOutOfRange                     // IndexError on a tuple
    | NotSubscriptable                    // TypeError from indexing None

  /** `str(e)` */
  function Message(e: Exc): string {
    match e
    case DriverError(m) => m
    case ConnectionFailure(m) => m
    case Runtime(m) => m
    case Raised(m) => m
    case MissingKey(k) => "'" + k + "'"
    case BadUnpack(got) =>
      if got == 0 then "not enough values to unpack (expected 1, got 0)" else "too many values to unpack (expected 1)"
    case IndexOutOfRange => "tuple index out of range"
    case NotSubscriptable => "'NoneType' object is not subscriptable"
  }

  class Server {
    /** `Some(message)` when `mysql.connector.connect` raises. */
    const refusal: Option<string>
    const respond: Request -> Outcome

    ghost var open: int
    ghost var cursors: int
    ghost var commits: int
    ghost var log: seq<Request>

    constructor (refusal: Option<string>, respond: Request -> Outcome)
      ensures this.refusal == refusal && this.respond == respond
      ensures open == 0 && cursors == 0 && commits == 0 && log == []
    {
      this.refusal := refusal;
      this.respond := respond;
      open, cursors, commits, log := 0, 0, 0, [];
    }
  }

  class Connection {
    const server: Server
    /** `is_connected()` */
    var connected: bool

    constructor (server: Server)
      ensures this.server == server && connected
    {
      this.server := server;
      connected := true;
    }

    method Close()
      requires connected
      modifies this, server`open
      ensures !connected && server.open == old(server.open) - 1
    {
      connected := false;
      server.open := server.open - 1;
    }

    method OpenCursor()
      modifies server`cursors
      ensures server.cursors == old(server.cursors) + 1
    {
      server.cursors := server.cursors + 1;
    }

    method CloseCursor()
      modifies server`cursors
      ensures server.cursors == old(server.cursors) - 1
    {
      server.cursors := server.cursors - 1;
    }

    method Execute(sql: string, params: Option<seq<Value>>) returns (o: Outcome)
      requires connected
      modifies server`log
      ensures o == server.respond(Request(sql, params))
      ensures server.log == old(server.log) + [Request(sql, params)]
    {
      o := server.respond(Request(sql, params));
      server.log := server.log + [Request(sql, params)];
    }

    method Commit()
      requires connected
      modifies server`commits
      ensures server.commits == old(server.commits) + 1
    {
      server.commits := server.commits + 1;
    }
  }

  /** `mysql.connector.connect(...)`: a fresh open connection, or the driver's
      error message. */
  method Connect(server: Server) returns (r: Result<Connection, string>)
    modifies server`open
    ensures server.refusal.Some? ==> r == Err(server.refusal.value) && server.open == old(server.open)
    ensures server.refusal.None? ==> && r.Ok? && fresh(r.value) && r.value.server == server
                                     && r.value.connected && server.open == old(server.open) + 1
  {
    if server.refusal.Some? {
      return Err(server.refusal.value);
    }
    var c := new Connection(server);
    server.open := server.open + 1;
    return Ok(c);
  }
}
