/** The natural-language SQL engine over the local database manager: API key
    resolution and the `use_ai` gate fixed at construction, the schema context
    built from the table introspection, SQL generation through a chat
    completion endpoint with the code-fence clean-up of its answer, the result
    envelopes of the query operations, and the plain-text table renderer. */
module QueryEngine {
  import opened Base
  import opened Text
  import opened Dicts
  import opened Driver
  import opened LocalConfiguration
  import opened LocalDatabase

  // ---------------------------------------------------------------------
  // API key and the AI gate

  /** Python truthiness of an optional string: present and non-empty. */
  predicate Truthy(key: Option<string>) {
    key.Some? && key.value != ""
  }

  /** The key the engine keeps: the explicit argument if truthy, else the
      configured key if non-empty, else whatever the environment holds
      (possibly nothing). */
  function ResolveApiKey(explicit: Option<string>, configured: string, env: Option<string>): Option<string> {
    if Truthy(explicit) then explicit
    else if configured != "" then Some(configured)
    else env
  }

  /** A usable key is found exactly when one of the three sources has one,
      and it is the first such source in priority order. */
  lemma ApiKeyPriority(explicit: Option<string>, configured: string, env: Option<string>)
    ensures Truthy(ResolveApiKey(explicit, configured, env)) <==> Truthy(explicit) || configured != "" || Truthy(env)
    ensures Truthy(explicit) ==> ResolveApiKey(explicit, configured, env) == explicit
    ensures !Truthy(explicit) && configured != "" ==> ResolveApiKey(explicit, configured, env) == Some(configured)
    ensures !Truthy(explicit) && configured == "" && Truthy(env) ==> ResolveApiKey(explicit, configured, env) == env
  {
  }

  // ---------------------------------------------------------------------
  // Schema context

  const SchemaHeader := "Available tables and columns:\n"
  const SchemaErrorPrefix := "Error loading schema: "

  /** `f"{col['name']} ({col['type']})"` */
  function ColumnEntry(c: ColumnInfo): string {
    Show(c.name) + " (" + Show(c.columnType) + ")"
  }

  function ColumnEntries(columns: seq<ColumnInfo>): (es: seq<string>)
    ensures |es| == |columns| && forall j :: 0 <= j < |columns| ==> es[j] == ColumnEntry(columns[j])
  {
    if columns == [] then [] else [ColumnEntry(columns[0])] + ColumnEntries(columns[1..])
  }

  /** `f"Table {table_name}: {', '.join(column_info)}"` */
  function TableLine(name: Value, columns: seq<ColumnInfo>): string {
    "Table " + Show(name) + ": " + Join(ColumnEntries(columns), ", ")
  }

  /** One schema line per table, in the dictionary's order. */
  function TableLines(tables: TableInfo): (ls: seq<string>)
    ensures |ls| == |tables| && forall i :: 0 <= i < |tables| ==> ls[i] == TableLine(tables[i].0, tables[i].1)
  {
    if tables == [] then [] else TableLines(tables[..|tables| - 1]) + [TableLine(tables[|tables| - 1].0, tables[|tables| - 1].1)]
  }

  /** The schema context for a loaded table dictionary. */
  function SchemaContext(tables: TableInfo): string {
    SchemaHeader + Join(TableLines(tables), "\n")
  }

  /** What `_build_schema_context` leaves in `schema_context` after loading
      the tables succeeded or raised. */
  function SchemaText(loaded: Result<TableInfo, Exc>): string {
    match loaded
    case Ok(tables) => SchemaContext(tables)
    case Err(e) => SchemaErrorPrefix + Message(e)
  }

  /** The context starts with the header, an empty schema is the header
      alone, and every table's line, hence its name and each of its columns
      with its type, occurs in it. */
  lemma SchemaMentions(tables: TableInfo, i: nat, j: nat)
    requires i < |tables| && j < |tables[i].1|
    ensures StartsWith(SchemaContext(tables), SchemaHeader)
    ensures Occurs(TableLine(tables[i].0, tables[i].1), SchemaContext(tables))
    ensures Occurs("Table " + Show(tables[i].0) + ": ", SchemaContext(tables))
    ensures Occurs(ColumnEntry(tables[i].1[j]), SchemaContext(tables))
  {
    var line := TableLine(tables[i].0, tables[i].1);
    var body := Join(TableLines(tables), "\n");
    JoinOccurs(TableLines(tables), "\n", i);
    OccursWithin(line, body, SchemaHeader, "");
    assert SchemaHeader + body + "" == SchemaContext(tables);
    var head := "Table " + Show(tables[i].0) + ": ";
    var entries := Join(ColumnEntries(tables[i].1), ", ");
    assert OccursAt(head, line, 0);
    OccursTransitive(head, line, SchemaContext(tables));
    JoinOccurs(ColumnEntries(tables[i].1), ", ", j);
    OccursWithin(ColumnEntry(tables[i].1[j]), entries, head, "");
    assert head + entries + "" == line;
    OccursTransitive(ColumnEntry(tables[i].1[j]), line, SchemaContext(tables));
  }

  /** An empty schema gives the header alone. */
  lemma SchemaEmpty(tables: TableInfo)
    requires tables == []
    ensures SchemaContext(tables) == SchemaHeader
  {
    assert TableLines(tables) == [];
  }

  /** `with db: db.get_table_info()` on a fresh manager: entering raises when
      the server refuses, otherwise the table information of the configured
      database. */
  function TablesOf(refusal: Option<string>, respond: Request -> Outcome, dbName: string): Result<TableInfo, Exc> {
    if refusal.Some? then Err(ConnectionFailure(LocalConfiguration.ConnectFailurePrefix + refusal.value))
    else TableInfoOf(respond, dbName)
  }

  // ---------------------------------------------------------------------
  // SQL generation

  const ApiUrl := "https://api.openai.com/v1/chat/completions"
  const MaxTokens := 500

  /** The parts of the chat completion request the engine sends. */
  datatype ChatRequest = ChatRequest(url: string, authorization: string, model: string, system: string, user: string, maxTokens: nat)

  /** A completion answer body: `choices[0].message.content`, the first key
      it lacks, an empty `choices` list, a JSON `null` content, or a body
      that is not JSON at all (with the decoder's message). */
  datatype Answer = Content(text: string) | LacksKey(key: string) | NoChoice | NullContent | NotJson(message: string)

  /** What `requests.post` gives back: a response with its status code, its
      text and its decoded body, or a `RequestException`. */
  datatype Completion =
    | Response(status: int, text: string, answer: Answer)
    | Unreachable(message: string)

  const SystemIntro := "You are a MySQL expert. Convert natural language queries to SQL.\n\n"
  const SystemRules :=
    "\n\nRules:\n1. Return ONLY the SQL query, no explanations\n2. Use proper MySQL syntax\n" +
    "3. Table and column names are case sensitive\n" +
    "4. If the query is unclear, make reasonable assumptions based on the schema\n" +
    "5. For aggregations, include appropriate GROUP BY clauses\n6. Use JOIN when querying multiple tables\n" +
    "7. Use LIMIT for large result sets when appropriate\n\nExample:\n" +
    "Natural: \"How many users are there?\"\nSQL: SELECT COUNT(*) as user_count FROM users\n"

  /** The system prompt: the schema context between the fixed instructions. */
  function SystemPrompt(schema: string): string {
    SystemIntro + schema + SystemRules
  }

  function UserPrompt(naturalQuery: string): string {
    "Convert this to SQL: " + naturalQuery
  }

  function RequestFor(key: string, model: string, schema: string, naturalQuery: string): ChatRequest {
    ChatRequest(ApiUrl, "Bearer " + key, model, SystemPrompt(schema), UserPrompt(naturalQuery), MaxTokens)
  }

  /** The request carries the schema context and the question verbatim. */
  lemma RequestCarriesContext(key: string, model: string, schema: string, naturalQuery: string)
    ensures Occurs(schema, RequestFor(key, model, schema, naturalQuery).system)
    ensures Occurs(naturalQuery, RequestFor(key, model, schema, naturalQuery).user)
  {
    OccursInMiddle(SystemIntro, schema, SystemRules);
    OccursInMiddle("Convert this to SQL: ", naturalQuery, "");
    assert "Convert this to SQL: " + naturalQuery + "" == UserPrompt(naturalQuery);
  }

  const Fence := "```"
  const SqlFence := "```sql"

  /** The fence clean-up: strip, drop a leading "```sql" (and then, or
      else, a leading "```"), drop a trailing "```", strip again. */
  function CleanSql(content: string): string {
    Strip(DropSuffix(DropPrefix(DropPrefix(Strip(content), SqlFence), Fence), Fence))
  }

  /** The clean-up never leaves whitespace at either end. */
  lemma CleanTrimmed(content: string)
    ensures Trimmed(CleanSql(content))
  {
    StripSpec(DropSuffix(DropPrefix(DropPrefix(Strip(content), SqlFence), Fence), Fence));
  }

  /** Text without a fence at either end after stripping comes back
      stripped and otherwise unchanged. */
  lemma CleanUnfenced(content: string)
    requires !StartsWith(Strip(content), Fence) && !EndsWith(Strip(content), Fence)
    ensures CleanSql(content) == Strip(content)
  {
    var a := Strip(content);
    assert DropPrefix(a, SqlFence) == a;
    StripIdempotent(content);
  }

  /** Fenced text starts and ends with a backtick, so stripping keeps it. */
  lemma FencedTrimmed(opener: string, s: string)
    requires opener != [] && opener[0] == '`'
    ensures Strip(opener + s + Fence) == opener + s + Fence
  {
    var whole := opener + s + Fence;
    assert whole[0] == '`' && whole[|whole| - 1] == '`';
    StripTrimmed(whole);
  }

  /** A "```sql" fence around a statement that does not begin with a
      backtick is removed, leaving the stripped statement. */
  lemma CleanSqlFence(s: string)
    requires s == [] || s[0] != '`'
    ensures CleanSql(SqlFence + s + Fence) == Strip(s)
  {
    var inner := s + Fence;
    var whole := SqlFence + s + Fence;
    FencedTrimmed(SqlFence, s);
    assert whole == SqlFence + inner;
    DropPrefixOf(SqlFence, inner);
    assert DropPrefix(Strip(whole), SqlFence) == inner;
    CleanAfterTag(s);
  }

  /** What is left after the tagged opener: the closing fence. */
  lemma CleanAfterTag(s: string)
    requires s == [] || s[0] != '`'
    ensures Strip(DropSuffix(DropPrefix(s + Fence, Fence), Fence)) == Strip(s)
  {
    if s == [] {
      assert s + Fence == Fence + "";
      DropPrefixOf(Fence, "");
      assert DropSuffix("", Fence) == "";
    } else {
      assert (s + Fence)[0] != Fence[0];
      assert DropPrefix(s + Fence, Fence) == s + Fence;
      DropSuffixOf(s, Fence);
    }
  }

  /** Appending the fence cannot create the tag. */
  lemma NoSqlTag(s: string)
    requires !StartsWith(s, "sql")
    ensures !StartsWith(s + Fence, "sql")
  {
    var inner := s + Fence;
    if |s| >= 3 {
      assert inner[..3] == s[..3];
    } else {
      assert inner[|s|] == '`' && "sql"[|s|] != '`';
    }
  }

  /** A bare "```" fence is removed as well, unless the statement itself
      begins with "sql", which the clean-up takes for the fence's tag. */
  lemma CleanBareFence(s: string)
    requires !StartsWith(s, "sql")
    ensures CleanSql(Fence + s + Fence) == Strip(s)
  {
    FencedTrimmed(Fence, s);
    var inner := s + Fence;
    assert Fence + s + Fence == Fence + inner;
    NoSqlTag(s);
    assert SqlFence == Fence + "sql";
    StartsWithCancel(Fence, inner, "sql");
    assert DropPrefix(Fence + inner, SqlFence) == Fence + inner;
    DropPrefixOf(Fence, inner);
    DropSuffixOf(s, Fence);
  }

  const NoKeyMessage := "OpenAI API key not available"
  const NetworkErrorPrefix := "Network error calling OpenAI API: "
  const FormatErrorPrefix := "Unexpected OpenAI API response format: "
  const GenerationErrorPrefix := "Error generating SQL with OpenAI: "
  const ApiErrorPrefix := "OpenAI API error: "

  /** `str(e)` of the `AttributeError` that `None.strip()` raises. */
  const NoStripMessage := "'NoneType' object has no attribute 'strip'"

  /** The exception a non-200 response raises. */
  function ApiError(status: int, text: string): string {
    ApiErrorPrefix + IntToString(status) + " - " + text
  }

  /** `str(e)` of what `_generate_sql_with_openai` raises, or the cleaned SQL,
      given the endpoint's reply. */
  function Generated(reply: Completion): Result<string, string> {
    match reply
      case Unreachable(m) => Err(NetworkErrorPrefix + m)
      case Response(status, text, answer) =>
        if status != 200 then Err(GenerationErrorPrefix + ApiError(status, text))
        else match answer
          case Content(sql) => Ok(CleanSql(sql))
          case LacksKey(k) => Err(FormatErrorPrefix + "'" + k + "'")
          case NoChoice => Err(GenerationErrorPrefix + "list index out of range")
          case NullContent => Err(GenerationErrorPrefix + NoStripMessage)
          case NotJson(m) => Err(NetworkErrorPrefix + m)
  }

  /** `_generate_sql_with_openai` as a whole: without a key it raises before
      any request is made. */
  function GeneratedFor(key: Option<string>, complete: ChatRequest -> Completion, model: string, schema: string,
                        naturalQuery: string): Result<string, string>
  {
    if !Truthy(key) then Err(NoKeyMessage)
    else Generated(complete(RequestFor(key.value, model, schema, naturalQuery)))
  }

  // ---------------------------------------------------------------------
  // Result envelopes

  const AiUnavailableMessage := "AI functionality not available. Use execute_sql_query() for direct SQL."
  const NaturalErrorPrefix := "Error processing natural language query: "
  const DatabaseErrorPrefix := "Database error: "
  const ListErrorPrefix := "Error listing tables: "

  /** The dictionaries the query operations return, one constructor per key
      set. */
  datatype Envelope =
    | Answered(data: seq<Row>, sqlQuery: string, naturalQuery: Option<string>, rowCount: nat)
    | DatabaseFailed(error: string, sqlQuery: string, naturalQuery: Option<string>)
    | AiUnavailable
    | NaturalFailed(error: string, question: string)
    | Listed(names: seq<Value>, tableInfo: TableInfo)
    | ListFailed(error: string)

  /** `results["success"]` */
  predicate Success(e: Envelope) {
    e.Answered? || e.Listed?
  }

  /** `results["error"]` of a failed envelope. */
  function ErrorText(e: Envelope): string
    requires !Success(e)
  {
    match e
    case DatabaseFailed(error, _, _) => error
    case AiUnavailable => AiUnavailableMessage
    case NaturalFailed(error, _) => error
    case ListFailed(error) => error
  }

  /** `with db: db.execute_query(sql)` on a fresh manager. */
  function SqlOutcome(refusal: Option<string>, respond: Request -> Outcome, sql: string): Result<seq<Row>, Exc> {
    if refusal.Some? then Err(ConnectionFailure(LocalConfiguration.ConnectFailurePrefix + refusal.value))
    else ExecuteResult(sql, respond(Request(sql, None)))
  }

  /** The envelope of `execute_sql_query`: success with the rows and their
      count, or the error text prefixed with "Database error: ", the SQL and
      the question echoed either way. */
  function SqlEnvelope(sql: string, naturalQuery: Option<string>, outcome: Result<seq<Row>, Exc>): (e: Envelope) {
    match outcome
    case Ok(rows) => Answered(rows, sql, naturalQuery, |rows|)
    case Err(x) => DatabaseFailed(DatabaseErrorPrefix + Message(x), sql, naturalQuery)
  }

  /** The envelope of `list_tables`. */
  function ListEnvelope(loaded: Result<TableInfo, Exc>): Envelope {
    match loaded
    case Ok(tables) => Listed(Keys(tables), tables)
    case Err(x) => ListFailed(ListErrorPrefix + Message(x))
  }

  /** The envelope of `execute_natural_query` once the AI gate is open. */
  function NaturalEnvelope(naturalQuery: string, generated: Result<string, string>, outcome: Result<seq<Row>, Exc>): Envelope {
    match generated
    case Err(m) => NaturalFailed(NaturalErrorPrefix + m, naturalQuery)
    case Ok(sql) => SqlEnvelope(sql, Some(naturalQuery), outcome)
  }

  /** A non-200 reply fails the natural query with an error naming the
      status code, and carries the question. */
  lemma RejectedReplyFails(reply: Completion, naturalQuery: string, outcome: Result<seq<Row>, Exc>)
    requires reply.Response? && reply.status != 200
    ensures Generated(reply).Err?
    ensures var e := NaturalEnvelope(naturalQuery, Generated(reply), outcome);
            && e.NaturalFailed? && e.question == naturalQuery
            && Occurs(ApiErrorPrefix + IntToString(reply.status), e.error)
  {
    var named := ApiErrorPrefix + IntToString(reply.status);
    OccursInMiddle(NaturalErrorPrefix + GenerationErrorPrefix, named, " - " + reply.text);
    Regroup(NaturalErrorPrefix, GenerationErrorPrefix, named, " - ", reply.text);
  }

  /** Five pieces of text, grouped the two ways the error message is built. */
  lemma Regroup(a: string, b: string, t: string, c: string, d: string)
    ensures a + b + t + (c + d) == a + (b + (t + c + d))
  {
  }

  /** A successful `execute_sql_query` reports as many rows as it returns;
      a failed one keeps the manager's message after its prefix. */
  lemma SqlEnvelopeSpec(sql: string, naturalQuery: Option<string>, outcome: Result<seq<Row>, Exc>)
    ensures Success(SqlEnvelope(sql, naturalQuery, outcome)) <==> outcome.Ok?
    ensures outcome.Ok? ==> SqlEnvelope(sql, naturalQuery, outcome).data == outcome.value
                            && SqlEnvelope(sql, naturalQuery, outcome).rowCount == |outcome.value|
    ensures outcome.Err? ==> && ErrorText(SqlEnvelope(sql, naturalQuery, outcome)) == DatabaseErrorPrefix + Message(outcome.error)
                             && SqlEnvelope(sql, naturalQuery, outcome).sqlQuery == sql
    ensures SqlEnvelope(sql, naturalQuery, outcome).naturalQuery == naturalQuery
  {
  }

  /** On success `list_tables` names the `SHOW TABLES` tables in their
      first-appearance order. */
  lemma ListedNames(respond: Request -> Outcome, dbName: string, tables: seq<Row>)
    requires TableInfoOf(respond, dbName).Ok?
    requires respond(Request(ShowTables, None)).Executed?
    requires tables == DictRows(respond(Request(ShowTables, None)).columns, respond(Request(ShowTables, None)).tuples)
    ensures forall i :: 0 <= i < |tables| ==> TableKey(dbName) in Keys(tables[i])
    ensures ListEnvelope(TableInfoOf(respond, dbName)).names == AddKeys([], Names(tables, TableKey(dbName)))
  {
    TableInfoSpec(respond, dbName, tables);
  }

  // ---------------------------------------------------------------------
  // Rendering

  const ErrorPrefix := "\U{E2}\U{152} Error: "
  const NoResults := "No results found."
  const NothingToDisplay := "No results to display."

  /** `str(row.get(col, ''))` */
  function Cell(row: Row, col: string): string {
    match Get(row, col)
    case None => ""
    case Some(v) => Show(v)
  }

  function Cells(row: Row, columns: seq<string>): (cs: seq<string>)
    ensures |cs| == |columns| && forall j :: 0 <= j < |columns| ==> cs[j] == Cell(row, columns[j])
  {
    if columns == [] then [] else [Cell(row, columns[0])] + Cells(row, columns[1..])
  }

  /** A column's width: the longest of its name and its displayed values. */
  function Width(col: string, rows: seq<Row>): (w: nat)
    ensures |col| <= w
    decreases |rows|
  {
    if rows == [] then |col|
    else
      var w := Width(col, rows[..|rows| - 1]);
      var c := |Cell(rows[|rows| - 1], col)|;
      if c > w then c else w
  }

  /** The width bounds the name and every displayed value. */
  lemma WidthBounds(col: string, rows: seq<Row>)
    ensures |col| <= Width(col, rows)
    ensures forall i :: 0 <= i < |rows| ==> |Cell(rows[i], col)| <= Width(col, rows)
  {
    forall i | 0 <= i < |rows| ensures |Cell(rows[i], col)| <= Width(col, rows) {
      WidthBoundsAt(col, rows, i);
    }
  }

  /** The width bounds the value of row `i`. */
  lemma {:induction false} WidthBoundsAt(col: string, rows: seq<Row>, i: nat)
    requires i < |rows|
    ensures |Cell(rows[i], col)| <= Width(col, rows)
    decreases |rows|
  {
    WidthStep(col, rows);
    if i < |rows| - 1 {
      var init := rows[..|rows| - 1];
      WidthBoundsAt(col, init, i);
      assert init[i] == rows[i];
    }
  }

  /** Adding a row can only widen the column, to at least that row's value. */
  lemma WidthStep(col: string, rows: seq<Row>)
    requires rows != []
    ensures Width(col, rows[..|rows| - 1]) <= Width(col, rows)
    ensures |Cell(rows[|rows| - 1], col)| <= Width(col, rows)
  {
  }

  /** The width is attained: by the name or by some displayed value. */
  lemma {:induction false} WidthAttained(col: string, rows: seq<Row>)
    ensures Width(col, rows) == |col| || exists i :: 0 <= i < |rows| && Width(col, rows) == |Cell(rows[i], col)|
    decreases |rows|
  {
    if rows != [] {
      var init := rows[..|rows| - 1];
      WidthAttained(col, init);
      if Width(col, rows) != |Cell(rows[|rows| - 1], col)| && Width(col, rows) != |col| {
        var i :| 0 <= i < |init| && Width(col, init) == |Cell(init[i], col)|;
        assert init[i] == rows[i];
      }
    }
  }

  function Widths(columns: seq<string>, rows: seq<Row>): (ws: seq<nat>)
    ensures |ws| == |columns| && forall j :: 0 <= j < |columns| ==> ws[j] == Width(columns[j], rows)
  {
    if columns == [] then [] else [Width(columns[0], rows)] + Widths(columns[1..], rows)
  }

  function Padded(cells: seq<string>, widths: seq<nat>): (ps: seq<string>)
    requires |cells| == |widths|
    ensures |ps| == |cells| && forall j :: 0 <= j < |cells| ==> ps[j] == LJust(cells[j], widths[j])
  {
    seq(|cells|, j requires 0 <= j < |cells| => LJust(cells[j], widths[j]))
  }

  /** One line of the table: the cells padded to their widths, joined by
      " | ". */
  function Line(cells: seq<string>, widths: seq<nat>): string
    requires |cells| == |widths|
  {
    Join(Padded(cells, widths), " | ")
  }

  /** Cells no longer than their widths make a line of the table's width. */
  lemma LineLength(cells: seq<string>, widths: seq<nat>)
    requires |cells| == |widths| && forall j :: 0 <= j < |cells| ==> |cells[j]| <= widths[j]
    ensures |Line(cells, widths)| == JoinedWidth(widths, 3)
  {
    JoinLength(Padded(cells, widths), widths, " | ");
  }

  function RowLines(rows: seq<Row>, columns: seq<string>, widths: seq<nat>): (ls: seq<string>)
    requires |columns| == |widths|
    ensures |ls| == |rows| && forall i :: 0 <= i < |rows| ==> ls[i] == Line(Cells(rows[i], columns), widths)
  {
    if rows == [] then [] else RowLines(rows[..|rows| - 1], columns, widths) + [Line(Cells(rows[|rows| - 1], columns), widths)]
  }

  /** Header, dash line and one line per displayed row; the columns are
      the keys of the first displayed row. */
  function TableText(display: seq<Row>): seq<string>
    requires display != []
  {
    var columns := Keys(display[0]);
    var widths := Widths(columns, display);
    var header := Line(columns, widths);
    [header, Repeat('-', |header|)] + RowLines(display, columns, widths)
  }

  function Summary(total: nat, maxRows: nat): string {
    if total > maxRows then "\n\n... showing " + ShownOf(total, maxRows)
    else "\n\nTotal rows: " + NatToString(total)
  }

  /** "M of N rows" */
  function ShownOf(total: nat, maxRows: nat): string {
    NatToString(maxRows) + " of " + NatToString(total) + " rows"
  }

  /** The rendering of a successful result's rows. */
  function Render(data: seq<Row>, maxRows: nat): string {
    if data == [] then NoResults
    else
      var display := if |data| > maxRows then data[..maxRows] else data;
      if display == [] then NothingToDisplay
      else Join(TableText(display), "\n") + Summary(|data|, maxRows)
  }

  /** What `format_results` returns. A `list_tables` envelope holds names
      rather than rows, so only an empty one can be rendered. */
  function Format(results: Envelope, maxRows: nat): string
    requires results.Listed? ==> results.names == []
  {
    if !Success(results) then ErrorPrefix + ErrorText(results)
    else if results.Listed? then NoResults
    else Render(results.data, maxRows)
  }

  /** A non-empty table shows `min(len(data), max_rows)` rows after a header
      and a dash line of the header's length; every line has the same
      length, and the summary reports truncation. */
  lemma RenderShape(data: seq<Row>, maxRows: nat)
    requires data != [] && maxRows > 0
    ensures var shown := if |data| > maxRows then maxRows else |data|;
            var lines := TableText(data[..shown]);
            && Render(data, maxRows) == Join(lines, "\n") + Summary(|data|, maxRows)
            && |lines| == shown + 2
            && (forall k :: 0 <= k < |lines[1]| ==> lines[1][k] == '-')
            && (forall i :: 0 <= i < |lines| ==> |lines[i]| == |lines[0]|)
            && (forall i :: 0 <= i < shown ==>
                  lines[i + 2] == Line(Cells(data[i], Keys(data[0])), Widths(Keys(data[0]), data[..shown])))
  {
    var shown := if |data| > maxRows then maxRows else |data|;
    var display := data[..shown];
    assert display == if |data| > maxRows then data[..maxRows] else data;
    assert display[0] == data[0];
    TableLinesEven(display);
    TableRowLines(display);
    forall i | 0 <= i < shown
      ensures TableText(display)[i + 2] == Line(Cells(data[i], Keys(data[0])), Widths(Keys(data[0]), display))
    {
      assert display[i] == data[i];
    }
  }

  /** Every line of a table has the header's length, and the dash line is
      all dashes. */
  lemma TableLinesEven(display: seq<Row>)
    requires display != []
    ensures var lines := TableText(display);
            && |lines| == |display| + 2
            && (forall k :: 0 <= k < |lines[1]| ==> lines[1][k] == '-')
            && (forall i :: 0 <= i < |lines| ==> |lines[i]| == |lines[0]|)
  {
    var columns := Keys(display[0]);
    var widths := Widths(columns, display);
    var header := Line(columns, widths);
    var rows := RowLines(display, columns, widths);
    var lines := TableText(display);
    assert lines == [header, Repeat('-', |header|)] + rows;
    LineLength(columns, widths);
    forall i | 0 <= i < |rows| ensures |rows[i]| == |header| {
      RowLineLength(display, i);
    }
    forall i | 2 <= i < |lines| ensures |lines[i]| == |lines[0]| {
      assert lines[i] == rows[i - 2];
    }
  }

  /** A row's line has the table's width. */
  lemma RowLineLength(display: seq<Row>, i: nat)
    requires i < |display|
    ensures var columns := Keys(display[0]);
            var widths := Widths(columns, display);
            |Line(Cells(display[i], columns), widths)| == JoinedWidth(widths, 3)
  {
    var columns := Keys(display[0]);
    var widths := Widths(columns, display);
    var cells := Cells(display[i], columns);
    forall j | 0 <= j < |cells| ensures |cells[j]| <= widths[j] {
      WidthBounds(columns[j], display);
    }
    LineLength(cells, widths);
  }

  /** Line `i + 2` of a table is row `i`'s cells padded to the widths. */
  lemma TableRowLines(display: seq<Row>)
    requires display != []
    ensures forall i :: 0 <= i < |display| ==>
              TableText(display)[i + 2] == Line(Cells(display[i], Keys(display[0])), Widths(Keys(display[0]), display))
  {
  }

  /** The summary line: "... showing M of N rows" exactly when there are
      more rows than shown, "Total rows: N" otherwise. */
  lemma SummaryCases(total: nat, maxRows: nat)
    ensures total > maxRows <==> StartsWith(Summary(total, maxRows), "\n\n... showing ")
    ensures total <= maxRows <==> StartsWith(Summary(total, maxRows), "\n\nTotal rows: ")
  {
    if total > maxRows {
      SummaryCut(total, maxRows);
    } else {
      SummaryAll(total, maxRows);
    }
  }

  /** With rows cut, the summary is the "showing" line. */
  lemma SummaryCut(total: nat, maxRows: nat)
    requires total > maxRows
    ensures StartsWith(Summary(total, maxRows), "\n\n... showing ")
    ensures !StartsWith(Summary(total, maxRows), "\n\nTotal rows: ")
  {
    PrefixNotOther("\n\n... showing ", "\n\nTotal rows: ", ShownOf(total, maxRows), 2);
  }

  /** With every row shown, the summary is the total line. */
  lemma SummaryAll(total: nat, maxRows: nat)
    requires total <= maxRows
    ensures StartsWith(Summary(total, maxRows), "\n\nTotal rows: ")
    ensures !StartsWith(Summary(total, maxRows), "\n\n... showing ")
  {
    PrefixNotOther("\n\nTotal rows: ", "\n\n... showing ", NatToString(total), 2);
  }

  /** A text that starts with `p` does not start with a `q` that differs
      from `p` at some place. */
  lemma PrefixNotOther(p: string, q: string, rest: string, k: nat)
    requires k < |p| && k < |q| && p[k] != q[k]
    ensures StartsWith(p + rest, p) && !StartsWith(p + rest, q)
  {
    assert (p + rest)[..|p|] == p;
    assert (p + rest)[k] == p[k];
  }

  // ---------------------------------------------------------------------
  // The engine

  class SqlEngine {
    const db: LocalDatabaseManager
    const complete: ChatRequest -> Completion
    const model: string
    var useAi: bool
    var apiKey: Option<string>
    var schemaContext: string

    /** The manager is consistent, and the AI path is only on with a key. */
    ghost predicate Valid()
      reads this, db
    {
      db.Valid() && (useAi ==> Truthy(apiKey))
    }

    /** `__init__`: resolves the key, closes the AI gate when none was found,
        and builds the schema context once. */
    constructor (config: LocalConfig, server: Server, complete: ChatRequest -> Completion,
                 apiKey: Option<string>, env: Option<string>, model: string, useAi: bool)
      modifies server`open, server`log, server`cursors
      ensures Valid() && fresh(db) && db.config == config && db.server == server
      ensures this.complete == complete && this.model == model
      ensures this.apiKey == ResolveApiKey(apiKey, config.openAiApiKey, env)
      ensures this.useAi == (useAi && Truthy(this.apiKey))
      ensures schemaContext == SchemaText(TablesOf(server.refusal, server.respond, config.dbName))
      ensures server.open == old(server.open) && server.cursors == old(server.cursors)
    {
      db := new LocalDatabaseManager(config, server);
      this.complete := complete;
      this.model := model;
      var key;
      if Truthy(apiKey) {
        key := apiKey;
      } else if config.openAiApiKey != "" {
        key := Some(config.openAiApiKey);
      } else {
        key := env;
      }
      this.apiKey := key;
      this.useAi := useAi && Truthy(key);
      schemaContext := "";
      new;
      BuildSchemaContext();
    }

    /** `with self.db_manager: tables = self.db_manager.get_table_info()`:
        the connection the `with` opens is closed again. */
    method LoadTables() returns (r: Result<TableInfo, Exc>)
      requires Valid()
      modifies db, db.server`open, db.server`log, db.server`cursors
      ensures Valid()
      ensures r == TablesOf(db.server.refusal, db.server.respond, db.config.dbName)
      ensures db.server.open == old(db.server.open) && db.server.cursors == old(db.server.cursors)
      ensures db.server.refusal.Some? ==> db.server.log == old(db.server.log)
      ensures db.server.refusal.None? ==> old(db.server.log) + [Request(ShowTables, None)] <= db.server.log
    {
      var entered := db.Enter();
      if entered.Err? {
        return Err(entered.error);
      }
      r := db.GetTableInfo();
      db.Exit();
    }

    /** `_build_schema_context` */
    method BuildSchemaContext()
      requires Valid()
      modifies this`schemaContext, db, db.server`open, db.server`log, db.server`cursors
      ensures Valid()
      ensures schemaContext == SchemaText(TablesOf(db.server.refusal, db.server.respond, db.config.dbName))
      ensures db.server.open == old(db.server.open) && db.server.cursors == old(db.server.cursors)
    {
      var loaded := LoadTables();
      if loaded.Err? {
        schemaContext := SchemaErrorPrefix + Message(loaded.error);
        return;
      }
      var tables := loaded.value;
      var parts: seq<string> := [];
      for i := 0 to |tables|
        invariant parts == TableLines(tables[..i])
      {
        assert tables[..i + 1][..i] == tables[..i];
        parts := parts + [TableLine(tables[i].0, tables[i].1)];
      }
      assert tables[..|tables|] == tables;
      schemaContext := SchemaHeader + Join(parts, "\n");
    }

    /** `_generate_sql_with_openai`: one request when a key is set, then the
        status check, the answer extraction and the fence clean-up. */
    method GenerateSql(naturalQuery: string) returns (r: Result<string, string>)
      ensures r == GeneratedFor(apiKey, complete, model, schemaContext, naturalQuery)
    {
      if !Truthy(apiKey) {
        return Err(NoKeyMessage);
      }
      var reply := complete(RequestFor(apiKey.value, model, schemaContext, naturalQuery));
      if reply.Unreachable? {
        return Err(NetworkErrorPrefix + reply.message);
      }
      if reply.status != 200 {
        return Err(GenerationErrorPrefix + ApiError(reply.status, reply.text));
      }
      match reply.answer
      case LacksKey(k) => return Err(FormatErrorPrefix + "'" + k + "'");
      case NoChoice => return Err(GenerationErrorPrefix + "list index out of range");
      case NullContent => return Err(GenerationErrorPrefix + NoStripMessage);
      case NotJson(m) => return Err(NetworkErrorPrefix + m);
      case Content(text) =>
        var sql := CleanUp(text);
        return Ok(sql);
    }

    /** `execute_sql_query`: the statement runs once inside `with`, whose
        connection is closed again; the envelope reports the rows or the
        error. */
    method ExecuteSqlQuery(sql: string, naturalQuery: Option<string>) returns (r: Envelope)
      requires Valid()
      modifies db, db.server`open, db.server`log, db.server`cursors, db.server`commits
      ensures Valid()
      ensures r == SqlEnvelope(sql, naturalQuery, SqlOutcome(db.server.refusal, db.server.respond, sql))
      ensures db.server.open == old(db.server.open) && db.server.cursors == old(db.server.cursors)
      ensures db.server.refusal.Some? ==> db.server.log == old(db.server.log) && db.server.commits == old(db.server.commits)
      ensures db.server.refusal.None? ==>
                && db.server.log == old(db.server.log) + [Request(sql, None)]
                && db.server.commits == old(db.server.commits) + (if Commits(sql, db.server.respond(Request(sql, None))) then 1 else 0)
    {
      var entered := db.Enter();
      if entered.Err? {
        return DatabaseFailed(DatabaseErrorPrefix + Message(entered.error), sql, naturalQuery);
      }
      var results := db.ExecuteQuery(sql);
      db.Exit();
      match results
      case Err(e) => r := DatabaseFailed(DatabaseErrorPrefix + Message(e), sql, naturalQuery);
      case Ok(rows) => r := Answered(rows, sql, naturalQuery, |rows|);
    }

    /** `execute_natural_query`: with the AI gate closed, nothing is generated
        or executed; a failed generation executes nothing; otherwise the
        generated statement goes through `execute_sql_query`. */
    method ExecuteNaturalQuery(naturalQuery: string) returns (r: Envelope)
      requires Valid()
      modifies db, db.server`open, db.server`log, db.server`cursors, db.server`commits
      ensures Valid()
      ensures db.server.open == old(db.server.open) && db.server.cursors == old(db.server.cursors)
      ensures !useAi ==> r == AiUnavailable && db.server.log == old(db.server.log) && db.server.commits == old(db.server.commits)
      ensures useAi ==>
                var generated := GeneratedFor(apiKey, complete, model, schemaContext, naturalQuery);
                && (generated.Err? ==> db.server.log == old(db.server.log) && db.server.commits == old(db.server.commits))
                && (generated.Ok? && db.server.refusal.Some? ==> db.server.log == old(db.server.log) && db.server.commits == old(db.server.commits))
                && (generated.Ok? && db.server.refusal.None? ==>
                      && db.server.log == old(db.server.log) + [Request(generated.value, None)]
                      && db.server.commits == old(db.server.commits)
                                              + (if Commits(generated.value, db.server.respond(Request(generated.value, None))) then 1 else 0))
                && r == NaturalEnvelope(naturalQuery, generated,
                          if generated.Ok? then SqlOutcome(db.server.refusal, db.server.respond, generated.value) else Ok([]))
    {
      if !useAi {
        return AiUnavailable;
      }
      var generated := GenerateSql(naturalQuery);
      if generated.Err? {
        return NaturalFailed(NaturalErrorPrefix + generated.error, naturalQuery);
      }
      r := ExecuteSqlQuery(generated.value, Some(naturalQuery));
    }

    /** `get_table_preview`: the preview statement through
        `execute_sql_query`; being a read, it never commits. */
    method GetTablePreview(table: string, limit: int) returns (r: Envelope)
      requires Valid()
      modifies db, db.server`open, db.server`log, db.server`cursors, db.server`commits
      ensures Valid()
      ensures r == SqlEnvelope(PreviewQuery(table, limit), None, SqlOutcome(db.server.refusal, db.server.respond, PreviewQuery(table, limit)))
      ensures db.server.commits == old(db.server.commits) && db.server.open == old(db.server.open)
      ensures db.server.refusal.None? ==> db.server.log == old(db.server.log) + [Request(PreviewQuery(table, limit), None)]
    {
      PreviewIsLocalRead(table, limit);
      r := ExecuteSqlQuery(PreviewQuery(table, limit), None);
    }

    /** `list_tables`: the table names and the table information, from one
        `with` block. */
    method ListTables() returns (r: Envelope)
      requires Valid()
      modifies db, db.server`open, db.server`log, db.server`cursors
      ensures Valid()
      ensures r == ListEnvelope(TablesOf(db.server.refusal, db.server.respond, db.config.dbName))
      ensures db.server.open == old(db.server.open) && db.server.cursors == old(db.server.cursors)
    {
      var loaded := LoadTables();
      match loaded
      case Err(e) => r := ListFailed(ListErrorPrefix + Message(e));
      case Ok(tables) => r := Listed(Keys(tables), tables);
    }

    /** The width of every column: the longest of its name and its values in
        the displayed rows. */
    method ColumnWidths(columns: seq<string>, display: seq<Row>) returns (widths: seq<nat>)
      ensures widths == Widths(columns, display)
    {
      widths := [];
      for k := 0 to |columns|
        invariant |widths| == k && forall j :: 0 <= j < k ==> widths[j] == Width(columns[j], display)
      {
        var w := ColumnWidth(columns[k], display);
        widths := widths + [w];
      }
    }

    /** One column's width, the maximum taken row by row. */
    method ColumnWidth(col: string, display: seq<Row>) returns (w: nat)
      ensures w == Width(col, display)
    {
      w := |col|;
      for i := 0 to |display|
        invariant w == Width(col, display[..i])
      {
        assert display[..i + 1][..i] == display[..i];
        var c := |Cell(display[i], col)|;
        if c > w {
          w := c;
        }
      }
      assert display[..|display|] == display;
    }

    /** `format_results` */
    method FormatResults(results: Envelope, maxRows: nat) returns (text: string)
      requires results.Listed? ==> results.names == []
      ensures text == Format(results, maxRows)
    {
      if !Success(results) {
        return ErrorPrefix + ErrorText(results);
      }
      if results.Listed? {
        return NoResults;
      }
      var data := results.data;
      if data == [] {
        return NoResults;
      }
      var display := if |data| > maxRows then data[..maxRows] else data;
      if display == [] {
        return NothingToDisplay;
      }
      var lines := BuildTable(display);
      text := Join(lines, "\n") + Summary(|data|, maxRows);
    }

    /** The header, the dash line and the row lines, built line by line. */
    method BuildTable(display: seq<Row>) returns (lines: seq<string>)
      requires display != []
      ensures lines == TableText(display)
    {
      var columns := Keys(display[0]);
      var widths := ColumnWidths(columns, display);
      var header := Line(columns, widths);
      lines := [header, Repeat('-', |header|)];
      for i := 0 to |display|
        invariant lines == [header, Repeat('-', |header|)] + RowLines(display[..i], columns, widths)
      {
        assert display[..i + 1][..i] == display[..i];
        lines := lines + [Line(Cells(display[i], columns), widths)];
      }
      assert display[..|display|] == display;
    }
  }

  /** The clean-up of `_generate_sql_with_openai`, reassigning the answer
      step by step. */
  method CleanUp(text: string) returns (sqlQuery: string)
    ensures sqlQuery == CleanSql(text)
  {
    sqlQuery := Strip(text);
    ghost var stripped := sqlQuery;
    if StartsWith(sqlQuery, SqlFence) {
      sqlQuery := sqlQuery[6..];
    }
    assert sqlQuery == DropPrefix(stripped, SqlFence);
    ghost var untagged := sqlQuery;
    if StartsWith(sqlQuery, Fence) {
      sqlQuery := sqlQuery[3..];
    }
    assert sqlQuery == DropPrefix(untagged, Fence);
    ghost var unopened := sqlQuery;
    if EndsWith(sqlQuery, Fence) {
      sqlQuery := sqlQuery[..|sqlQuery| - 3];
    }
    assert sqlQuery == DropSuffix(unopened, Fence);
    sqlQuery := Strip(sqlQuery);
  }

  /** The preview statement is a read for the local manager. */
  lemma PreviewIsLocalRead(table: string, limit: int)
    ensures IsRead(PreviewQuery(table, limit))
  {
    var tail := table + " LIMIT " + IntToString(limit);
    assert PreviewQuery(table, limit) == "SELECT * FROM " + tail;
    SelectFromIsRead(tail);
  }
}
