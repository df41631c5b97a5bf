/** The local configuration object: fixed connection settings, the display
    form of those settings with the password masked, the SQLAlchemy URI built
    from them, and the connect-and-close connection test. */
module LocalConfiguration {
  import opened Base
  import opened Text
  import opened Dicts
  import opened Driver

  datatype LocalConfig = LocalConfig(
    openAiApiKey: string,
    openAiModel: string,
    dbHost: string,
    dbPort: string,
    dbUser: string,
    dbPassword: string,
    dbName: string,
    connectionTimeout: int,
    autocommit: bool)

  /** The values the constructor hard-codes. */
  function Defaults(): LocalConfig {
    LocalConfig("", "gpt-4", "127.0.0.1", "3306", "newuser", "", "employee", 30, true)
  }

  const Masked := "***"
  const EmptyPassword := "(empty)"

  /** `get_connection_info()`: host, port, user and database as configured and
      a password field that only tells whether a password is set. */
  function ConnectionInfo(c: LocalConfig): (info: Dict<string, string>)
    ensures Keys(info) == ["host", "port", "user", "database", "password"]
    ensures Get(info, "host") == Some(c.dbHost) && Get(info, "port") == Some(c.dbPort)
    ensures Get(info, "user") == Some(c.dbUser) && Get(info, "database") == Some(c.dbName)
    ensures Get(info, "password") == Some(if c.dbPassword == "" then EmptyPassword else Masked)
  {
    var info := [("host", c.dbHost), ("port", c.dbPort), ("user", c.dbUser), ("database", c.dbName),
                 ("password", if c.dbPassword != "" then Masked else EmptyPassword)];
    GetAt(info, 2);
    GetAt(info, 3);
    GetAt(info, 4);
    info
  }

  /** The displayed information does not depend on the password beyond
      whether it is empty: two configurations that differ only in their
      non-empty passwords display the same. */
  lemma PasswordNotRevealed(c: LocalConfig, p1: string, p2: string)
    requires p1 != "" && p2 != ""
    ensures ConnectionInfo(c.(dbPassword := p1)) == ConnectionInfo(c.(dbPassword := p2))
  {
  }

  const UriScheme := "mysql+pymysql://"

  /** `get_database_uri()` */
  function DatabaseUri(c: LocalConfig): string {
    UriScheme + c.dbUser + ":" + c.dbPassword + "@" + c.dbHost + ":" + c.dbPort + "/" + c.dbName
  }

  /** The pieces a database URI names. */
  datatype UriParts = UriParts(user: string, password: string, host: string, port: string, name: string)

  /** The text before and after the first `c` in `s`. */
  function SplitFirst(s: string, c: char): (r: Option<(string, string)>)
    ensures r.Some? ==> s == r.value.0 + [c] + r.value.1 && c !in r.value.0
    ensures r.None? ==> c !in s
  {
    if s == [] then None
    else if s[0] == c then Some(([], s[1..]))
    else match SplitFirst(s[1..], c)
      case None => None
      case Some(p) => Some(([s[0]] + p.0, p.1))
  }

  lemma {:induction false} SplitFirstAt(a: string, c: char, b: string)
    requires c !in a
    ensures SplitFirst(a + [c] + b, c) == Some((a, b))
  {
    if a != [] {
      assert (a + [c] + b)[1..] == a[1..] + [c] + b;
      SplitFirstAt(a[1..], c, b);
      assert [a[0]] + a[1..] == a;
    }
  }

  /** Reading a URI back the way `user:password@host:port/name` is laid out. */
  function ParseUri(uri: string): Option<UriParts> {
    if !StartsWith(uri, UriScheme) then None
    else
      var rest := uri[|UriScheme|..];
      match SplitFirst(rest, ':')
      case None => None
      case Some(a) =>
        match SplitFirst(a.1, '@')
        case None => None
        case Some(b) =>
          match SplitFirst(b.1, ':')
          case None => None
          case Some(d) =>
            match SplitFirst(d.1, '/')
            case None => None
            case Some(e) => Some(UriParts(a.0, b.0, d.0, e.0, e.1))
  }

  /** The URI determines the five settings it is built from, as long as none of
      them contains the separator that ends it. */
  lemma UriRoundTrip(c: LocalConfig)
    requires ':' !in c.dbUser && '@' !in c.dbPassword && ':' !in c.dbHost && '/' !in c.dbPort
    ensures ParseUri(DatabaseUri(c)) == Some(UriParts(c.dbUser, c.dbPassword, c.dbHost, c.dbPort, c.dbName))
  {
    var uri := DatabaseUri(c);
    var p4 := c.dbPort + "/" + c.dbName;
    var p3 := c.dbHost + ":" + p4;
    var p2 := c.dbPassword + "@" + p3;
    var p1 := c.dbUser + ":" + p2;
    assert uri == UriScheme + p1;
    assert uri[|UriScheme|..] == p1;
    SplitFirstAt(c.dbUser, ':', p2);
    SplitFirstAt(c.dbPassword, '@', p3);
    SplitFirstAt(c.dbHost, ':', p4);
    SplitFirstAt(c.dbPort, '/', c.dbName);
  }

  const ConnectFailurePrefix := "Failed to connect to local MySQL database: "

  /** `get_database_connection()`: driver failures come back as
      `ConnectionError`. The configuration `c` is what the source passes to
      the driver; the oracle `server` already stands for the server those
      settings reach, so its answers do not read `c`. */
  method GetDatabaseConnection(c: LocalConfig, server: Server) returns (r: Result<Connection, Exc>)
    modifies server`open
    ensures server.refusal.Some? ==> && r == Err(ConnectionFailure(ConnectFailurePrefix + server.refusal.value))
                                     && server.open == old(server.open)
    ensures server.refusal.None? ==> && r.Ok? && fresh(r.value) && r.value.server == server
                                     && r.value.connected && server.open == old(server.open) + 1
  {
    var attempt := Connect(server);
    match attempt
    case Err(m) => r := Err(ConnectionFailure(ConnectFailurePrefix + m));
    case Ok(conn) => r := Ok(conn);
  }

  /** `test_connection()`: true exactly when a connection can be opened; the
      connection is closed again. */
  method TestConnection(c: LocalConfig, server: Server) returns (ok: bool)
    modifies server`open
    ensures ok <==> server.refusal.None?
    ensures server.open == old(server.open)
  {
    var attempt := GetDatabaseConnection(c, server);
    match attempt
    case Err(_) => ok := false;
    case Ok(conn) =>
      conn.Close();
      ok := true;
  }
}
