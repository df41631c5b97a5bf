# Gene: natural-language SQL engine and pull-request assistant, modelled in Dafny

The repository has two halves, and this project models the core of each.

**The Gene query system** turns a question in English into SQL, runs it on a
MySQL database and renders the answer as a text table. It has four parts:
- `LocalConfig` holds the connection settings. It opens connections, builds
  the database URI and reports the settings with the password masked.
- `LocalDatabaseManager` connects in `__enter__` and closes in `__exit__`. It
  runs statements on a dictionary cursor: reads return their rows, and writes
  commit and return a single `affected_rows` row. It also describes tables,
  tests the connection and reports database information.
- `DatabaseManager` is the remote manager. It connects on demand, returns
  `{"columns", "data"}` or `{"affected_rows"}`, and lists tables by their
  column names.
- `OpenAISQLEngine` resolves the API key and builds the schema context. It
  asks the chat service for a statement, removes any code fence from the
  answer, runs the statement, wraps every outcome in a result dictionary and
  formats the results as a padded table.

**The pull-request scripts** call a chat service:
- `generate_code_review.py` posts one review comment.
- `generate_pr_description.py` appends a generated section to the body.
- `ai_pr_assistant.py` does both. It keeps its description in a marked block,
  which later runs replace in place.

All three scripts share the same helpers:
- a file digest (`build_unified_diff`), truncated at `max_chars`;
- one summary line per file;
- the linked-issue tokens `#123` / `ABC-123`, found by a hand-written
  regular-expression matcher;
- a three-level choice of change signal: digest, then file summaries, then
  commit messages.

The model is organised as follows.
- Outside services are oracles fixed in advance:
  - the MySQL server (`Driver.Server`) answers each request with a set
    outcome and counts open connections, open cursors, commits and the
    request log;
  - the chat service (`GitHub.ChatClient`) answers each prompt with a set
    reply;
  - the pull request (`GitHub.PullRequest`) holds a body and the posted
    comments.
- Objects whose fields the source updates are classes with `modifies`
  frames: the managers, the engine, the connection and the pull request.
- Everything else is functions, with lemmas that state how the functions
  behave.
- Python's `str.strip`, `upper`, `lower`, `join`, `ljust` and `str(int)`
  are written out in module `Text`.
- Dictionaries keep insertion order and Python's assignment rules
  (module `Dicts`).

## Model

| member | source | states |
|---|---|---|
| LocalConfiguration.ConnectionInfo | Gene/config_local.py:79-92 | the info has exactly the keys host, port, user, database and password, in that order; the first four carry the settings; the password shows as `***` when set and `(empty)` when not |
| LocalConfiguration.PasswordNotRevealed | Gene/config_local.py:91 | two non-empty passwords give identical connection info, so the info reveals nothing about the password beyond whether it is empty |
| LocalConfiguration.SplitFirst | Gene/config_local.py:62 | splitting at the first occurrence of a character gives back the whole string, and nothing is found only when the character is absent |
| LocalConfiguration.UriRoundTrip | Gene/config_local.py:55-62 | the URI can be parsed back into the user, password, host, port and database name it was built from, provided the user and host have no `:`, the password has no `@` and the port has no `/` |
| LocalConfiguration.GetDatabaseConnection | Gene/config_local.py:34-53 | a driver failure becomes a connection error whose message is the fixed prefix followed by the driver's message; otherwise a fresh connection to the server is returned |
| LocalConfiguration.TestConnection | Gene/config_local.py:64-77 | true exactly when a connection can be opened; the connection that is opened is closed again |
| LocalDatabase.ReadIgnoresCase | Gene/database_local.py:60 | classifying a statement as a read does not depend on letter case |
| LocalDatabase.ReadByPrefix | Gene/database_local.py:60 | a statement that starts with SELECT, SHOW, DESCRIBE or EXPLAIN is a read, whatever follows |
| LocalDatabase.AffectedRow | Gene/database_local.py:66 | a write returns one row whose only key is `affected_rows`, holding the cursor's row count |
| LocalDatabase.ExecuteResult | Gene/database_local.py:56-69 | the result fails exactly when the server fails, with the message `SQL execution failed: …`; a read returns the dictionary rows and a write returns the affected-rows row |
| LocalDatabase.Column | Gene/database_local.py:103-111 | a renamed column carries the row's Field, Type, Null, Key, Default and Extra values; an error names a key the row lacks |
| LocalDatabase.ColumnSpec | Gene/database_local.py:103-111 | the row is renamed exactly when it has all six keys; otherwise the error is the first missing key in the order Field, Type, Null, Key, Default, Extra, as the dictionary display evaluates them |
| LocalDatabase.FormatColumns | Gene/database_local.py:102-111 | the loop renames every `DESCRIBE` row in order and stops at the first row with a missing key |
| LocalDatabase.Names | Gene/database_local.py:94-95 | reads the table name of every `SHOW TABLES` row under the `Tables_in_<db>` key |
| LocalDatabase.DescribeNamed | Gene/database_local.py:94-113 | when the loop succeeds, every row had the table key and every named table was described |
| LocalDatabase.DescribeKeys | Gene/database_local.py:94-113 | the resulting dictionary's keys are the table names in first-appearance order |
| LocalDatabase.DescribeGet | Gene/database_local.py:94-113 | each listed name maps to its described columns (the last description, for a repeated name); any other name is absent |
| LocalDatabase.DescribeAt | Gene/database_local.py:94-116 | one loop step: a missing key is a `KeyError`, a failed DESCRIBE stops the loop with that error, and otherwise the loop goes on with the table assigned |
| LocalDatabase.TableInfoSpec | Gene/database_local.py:73-120 | on success the keys of `get_table_info` are the `SHOW TABLES` names, in order, without repeats |
| LocalDatabase.TableInfoGet | Gene/database_local.py:73-120 | on success `get_table_info` maps each listed name to its DESCRIBE columns and holds no other name |
| LocalDatabase.FetchOneField | Gene/database_local.py:156-162 | `fetchone()[field]`: with no row it raises because None is not subscriptable; otherwise it is the first dictionary row's field when present and a `KeyError` naming the field when absent |
| LocalDatabase.DatabaseInfoOf | Gene/database_local.py:140-177 | the result is the info exactly when both fetches succeed and `SHOW TABLES` runs; the info holds the version and the current database fetched by their statements, the number of `SHOW TABLES` rows, and the configuration's connection info; otherwise it is the first failing step's error, a failed `SHOW TABLES` wrapped as a database-info failure |
| LocalDatabase.LocalDatabaseManager.constructor | Gene/database_local.py:16-19 | a new manager has its configuration and server and no connection |
| LocalDatabase.LocalDatabaseManager.Enter | Gene/database_local.py:32-35 | entering opens a fresh connection and stores it in the field; when connecting fails it raises the configuration's connection error and opens nothing |
| LocalDatabase.LocalDatabaseManager.Exit | Gene/database_local.py:37-40 | leaving closes a live connection and keeps the field; with no live connection nothing changes, and a closed connection stays closed |
| LocalDatabase.LocalDatabaseManager.ExecuteQuery | Gene/database_local.py:42-71 | with no live connection it raises and sends nothing; otherwise it sends the statement once, returns `ExecuteResult`, commits only after a successful write, and closes its cursor |
| LocalDatabase.LocalDatabaseManager.DescribeOne | Gene/database_local.py:98-111 | one DESCRIBE request for the named table, whose result is that table's formatted columns |
| LocalDatabase.LocalDatabaseManager.DescribeAll | Gene/database_local.py:94-113 | the loop over the `SHOW TABLES` rows computes `DescribeTables` and only adds to the request log |
| LocalDatabase.LocalDatabaseManager.GetTableInfo | Gene/database_local.py:73-120 | with no live connection it raises and sends nothing; otherwise it returns `TableInfoOf` for the server and closes its cursor |
| LocalDatabase.LocalDatabaseManager.TestConnection | Gene/database_local.py:122-138 | true exactly when a connection opens and `SELECT 1` answers 1 in the first field of its first row; the connection is closed again; the cursor stays open only when the statement fails |
| LocalDatabase.LocalDatabaseManager.Fetch | Gene/database_local.py:155-162 | one statement and the named field of its first row |
| LocalDatabase.LocalDatabaseManager.GetDatabaseInfo | Gene/database_local.py:140-177 | with no live connection it raises; otherwise it returns `DatabaseInfoOf` for the server and closes its cursor |
| RemoteDatabase.ReadIsLocalRead | Gene/database.py:59 | every read of the remote manager is also a read of the local manager |
| RemoteDatabase.ExplainIsOnlyLocalRead | Gene/database.py:59 | an `EXPLAIN` statement is a read for the local manager but a write (committed) for the remote one |
| RemoteDatabase.ReadByPrefix | Gene/database.py:59 | a statement that starts with SELECT, SHOW or DESCRIBE is a read |
| RemoteDatabase.QueryRequest | Gene/database.py:54-57 | the statement is sent unchanged, with parameters exactly when the parameter list is non-empty |
| RemoteDatabase.QueryResultOf | Gene/database.py:53-68 | the result fails exactly when the server fails, with the server's message after "Database error: "; a read gives the columns and the rows, any other statement the row count |
| RemoteDatabase.PreviewIsRead | Gene/database.py:115 | the preview statement is a read, whatever the table name |
| RemoteDatabase.TableName | Gene/database.py:91 | unpacking `(table_name,)` succeeds exactly on a one-field tuple and raises on any other width |
| RemoteDatabase.FirstField | Gene/database.py:94 | `col[0]` is the first field, and raises on an empty tuple |
| RemoteDatabase.FirstFields | Gene/database.py:94 | the comprehension takes the first field of every DESCRIBE tuple, in order, and stops at the first empty one |
| RemoteDatabase.DescribeColumnsSpec | Gene/database.py:92-94 | a failed DESCRIBE is the error; otherwise the result lists the first field of every tuple, in order |
| RemoteDatabase.Names | Gene/database.py:91 | the table names of one-field `SHOW TABLES` tuples |
| RemoteDatabase.DescribeNamed | Gene/database.py:91-94 | when the loop succeeds, every tuple held one name and every table was described |
| RemoteDatabase.DescribeKeys | Gene/database.py:90-96 | the dictionary's keys are the table names in first-appearance order |
| RemoteDatabase.DescribeGet | Gene/database.py:90-96 | each listed name maps to its column names; any other name is absent |
| RemoteDatabase.DescribeAt | Gene/database.py:91-99 | one loop step: a bad unpack stops the loop, a failed DESCRIBE stops it with its error, and otherwise the loop goes on |
| RemoteDatabase.TableInfoSpec | Gene/database.py:73-102 | on success `SHOW TABLES` ran and the result maps exactly the listed names to their described columns |
| RemoteDatabase.DatabaseManager.constructor | Gene/database.py:15-19 | a new manager has no connection |
| RemoteDatabase.DatabaseManager.Connect | Gene/database.py:21-29 | a fresh connection replaces the field; a connection failure raises and leaves the field as it was |
| RemoteDatabase.DatabaseManager.Disconnect | Gene/database.py:31-35 | a live connection is closed and the field cleared; otherwise nothing changes |
| RemoteDatabase.DatabaseManager.EnsureConnected | Gene/database.py:48-49 | a live connection is kept; otherwise the manager connects; afterwards the result is Ok exactly when a connection is live |
| RemoteDatabase.DatabaseManager.Run | Gene/database.py:51-71 | one request, whose result is `QueryResultOf`; commits only after a successful write; the cursor is closed |
| RemoteDatabase.DatabaseManager.ExecuteQuery | Gene/database.py:37-71 | connects first when needed (a refused connection raises before anything is sent), then behaves as `Run` |
| RemoteDatabase.DatabaseManager.DescribeAll | Gene/database.py:91-94 | the loop computes `DescribeTables` over the `SHOW TABLES` tuples |
| RemoteDatabase.DatabaseManager.GetTableInfo | Gene/database.py:73-102 | connects first when needed, then returns `TableInfoOf` and closes the cursor |
| RemoteDatabase.DatabaseManager.GetTablePreview | Gene/database.py:104-116 | sends the preview statement through `execute_query`; it never commits and, on success, returns the columns-and-data shape |
| QueryEngine.ApiKeyPriority | Gene/query_engine.py:35-41 | a usable key is found exactly when one of the explicit argument, the configured key or the environment has one, and the sources are tried in that order |
| QueryEngine.SchemaMentions | Gene/query_engine.py:59-64 | the context starts with the header and names every table, its `Table <name>: ` line and every `name (type)` entry |
| QueryEngine.SchemaEmpty | Gene/query_engine.py:64 | with no tables the context is the header alone |
| QueryEngine.RequestCarriesContext | Gene/query_engine.py:82-115 | the system message holds the schema context and the user message holds the question, both verbatim |
| QueryEngine.CleanTrimmed | Gene/query_engine.py:132-142 | the cleaned statement has no whitespace at either end |
| QueryEngine.CleanUnfenced | Gene/query_engine.py:132-142 | an answer with no fence at either end is only stripped |
| QueryEngine.CleanSqlFence | Gene/query_engine.py:135-142 | a "```sql … ```" answer gives back the stripped statement |
| QueryEngine.CleanBareFence | Gene/query_engine.py:137-142 | a bare "``` … ```" answer gives back the stripped statement, unless the statement starts with `sql` |
| QueryEngine.CleanUp | Gene/query_engine.py:132-142 | the reassigning clean-up computes `CleanSql` |
| QueryEngine.RejectedReplyFails | Gene/query_engine.py:126-127 | a non-200 status fails the natural query; the error names the status and the envelope keeps the question |
| QueryEngine.SqlEnvelopeSpec | Gene/query_engine.py:198-217 | the envelope succeeds exactly when the database does; success carries the rows and their count; failure carries `Database error: <message>` and the statement; both keep the question |
| QueryEngine.ListedNames | Gene/query_engine.py:224-233 | on success the listed names are the `SHOW TABLES` names in order, without repeats |
| QueryEngine.WidthBounds | Gene/query_engine.py:262 | a column's width is at least its name's length and at least every displayed cell's length |
| QueryEngine.WidthAttained | Gene/query_engine.py:262 | the width equals the name's length or the length of some displayed cell |
| QueryEngine.LineLength | Gene/query_engine.py:268-274 | cells no longer than their widths make a line whose length is the sum of the widths plus 3 for each separator |
| QueryEngine.RenderShape | Gene/query_engine.py:246-286 | a non-empty result shows min(len, max_rows) rows under a header and a dash line as long as the header; every line has the same length; row i is row i's cells padded to the column widths; the summary follows |
| QueryEngine.SummaryCases | Gene/query_engine.py:279-284 | "… showing M of N rows" exactly when rows were cut, "Total rows: N" otherwise |
| QueryEngine.PreviewIsLocalRead | Gene/query_engine.py:219-222 | the preview statement is a read for the local manager, so it never commits |
| QueryEngine.SqlEngine.constructor | Gene/query_engine.py:20-52 | keeps the resolved key; the AI path is on exactly when requested and a key was found; the schema context is that of the server's tables; no connection or cursor is left open |
| QueryEngine.SqlEngine.LoadTables | Gene/query_engine.py:57-58 | `with db: get_table_info()` gives the table dictionary or the error; no connection or cursor is left open |
| QueryEngine.SqlEngine.BuildSchemaContext | Gene/query_engine.py:54-66 | the context is the schema text of the tables, or `Error loading schema: …` |
| QueryEngine.SqlEngine.GenerateSql | Gene/query_engine.py:68-149 | with no key it raises before sending anything; otherwise it makes one request, cleans the answer, and wraps each failure in its message: a transport error or a body that is not JSON as a network error, a missing key as a format error, and a non-200 status, an empty `choices` list or a `null` content as a generation error |
| QueryEngine.SqlEngine.ExecuteSqlQuery | Gene/query_engine.py:187-217 | the envelope is `SqlEnvelope` of the database outcome; the statement is sent once, committed only when it is a successful write, and nothing is left open |
| QueryEngine.SqlEngine.ExecuteNaturalQuery | Gene/query_engine.py:151-185 | with the AI path off, nothing is generated or sent; a failed generation sends nothing; otherwise the generated statement goes through `execute_sql_query` with the question attached: nothing is sent or committed when the connection is refused, else the statement is sent once and committed exactly when it is a write that ran |
| QueryEngine.SqlEngine.GetTablePreview | Gene/query_engine.py:219-222 | the preview statement through `execute_sql_query`, without commits |
| QueryEngine.SqlEngine.ListTables | Gene/query_engine.py:224-239 | the table names with the table information, or `Error listing tables: …` |
| QueryEngine.SqlEngine.ColumnWidth | Gene/query_engine.py:262 | the row-by-row maximum is `Width` |
| QueryEngine.SqlEngine.ColumnWidths | Gene/query_engine.py:260-262 | one width per column, in column order |
| QueryEngine.SqlEngine.BuildTable | Gene/query_engine.py:256-274 | the header, the dash line and one padded line per displayed row, as `TableText` (whose shape `RenderShape` states) |
| QueryEngine.SqlEngine.FormatResults | Gene/query_engine.py:241-286 | an error line for a failed envelope, "No results found." for no data, otherwise the rendered table |
| PrHelpers.DiffPartsAt | scripts/ai_pr_assistant.py:59-63 | one piece per file, in file order: the two header lines, the change line and the patch |
| PrHelpers.PyPrefix | scripts/ai_pr_assistant.py:68 | `s[:n]` is a prefix of `s`, of length `n` when 0 <= n <= len(s) |
| PrHelpers.BuildUnifiedDiff | scripts/ai_pr_assistant.py:56-69 | the appending loop, with its join, strip and truncation, computes `UnifiedDiff` |
| PrHelpers.HeadingTrimmed | scripts/ai_pr_assistant.py:60-61 | a file's heading is non-empty and has no whitespace at either end |
| PrHelpers.DiffEmptyIff | scripts/ai_pr_assistant.py:64-66 | the digest is empty exactly when there are no files |
| PrHelpers.DiffBound | scripts/generate_pr_description.py:78-83 | with a non-negative limit, the digest is at most `max_chars` characters plus the truncation note; a digest that was cut is the first `max_chars` characters of the combined text followed by the note, and any other digest is the combined text itself |
| PrHelpers.DiffHeadingsInOrder | scripts/generate_code_review.py:61-73 | a digest that was not cut has no outer whitespace and holds the headings of files i and j, with file i's before file j's |
| PrHelpers.SummaryLinesAt | scripts/ai_pr_assistant.py:76-80 | one summary line per file, in file order |
| PrHelpers.BuildFileSummaries | scripts/generate_pr_description.py:85-99 | the appending loop computes `FileSummaries` |
| PrHelpers.TagSpec | scripts/ai_pr_assistant.py:77-78 | the tag is `NEW FILE` exactly when the lower-cased status is `added`, and otherwise it is that lower-cased status |
| PrHelpers.SummaryOneLinePerFile | scripts/generate_code_review.py:75-83 | when no file name or status holds a line break, splitting the summaries at line breaks gives back exactly the per-file lines |
| PrHelpers.MatchIsToken | scripts/ai_pr_assistant.py:86 | a match of `#\d+\|[A-Z]{2,}-\d+` is a whole token and does not stop before a digit |
| PrHelpers.TokenIsMatch | scripts/ai_pr_assistant.py:86 | a whole token that stops before a non-digit is exactly the match at its start |
| PrHelpers.ScanSound | scripts/ai_pr_assistant.py:86 | every token `findall` reports is a whole token that occurs in the body |
| PrHelpers.TokenFound | scripts/generate_code_review.py:88 | every match the scan cannot have passed over is reported |
| PrHelpers.ScanEmptyIff | scripts/generate_pr_description.py:109 | `findall` finds nothing exactly when the expression matches nowhere |
| PrHelpers.LinkedNoneIff | scripts/ai_pr_assistant.py:82-87 | the result is `none` exactly when the body is empty or missing, or has no match |
| PrHelpers.LinkedJoins | scripts/ai_pr_assistant.py:87 | with matches, the result is the tokens joined by ", " in order |
| PrHelpers.SignalOf | scripts/ai_pr_assistant.py:138-181 | the digest is chosen whenever it is non-empty, then the summaries, then the commit text; no signal only when all three are empty |
| PrHelpers.SummariesNeverChosen | scripts/ai_pr_assistant.py:97-100 | on a gathered context the summary signal is never chosen: with files the digest is non-empty, and without files the summaries are empty |
| PrHelpers.RolesEndInFullStop | scripts/ai_pr_assistant.py:139-198 | the opening role line of each prompt ends in a full stop |
| PrAssistant.ReviewPromptEmbeds | scripts/ai_pr_assistant.py:136-195 | the review prompt holds the chosen signal's text verbatim, and is the fixed fallback exactly when there is no signal |
| PrAssistant.ReviewPromptPriority | scripts/ai_pr_assistant.py:136-195 | a signal of higher priority hides the lower ones: two contexts that agree on the chosen signal and the metadata get the same review prompt |
| PrAssistant.DescriptionPromptEmbeds | scripts/ai_pr_assistant.py:197-279 | the description prompt holds the chosen signal's text verbatim, and is the fill-in template when there is no signal |
| PrAssistant.DescriptionPromptPriority | scripts/ai_pr_assistant.py:197-279 | as for reviews, the lower-priority signals do not change the prompt; the summary-based prompt is fixed by the summaries together with the pull-request metadata |
| PrAssistant.ReviewFollowsFiles | scripts/ai_pr_assistant.py:89-195 | on a gathered context the review prompt is built on the digest exactly when the pull request has files, and otherwise on the commits if there are any |
| PrAssistant.DescriptionFollowsFiles | scripts/ai_pr_assistant.py:89-279 | the same for the description prompt, with the template as the last resort |
| PrAssistant.FramedReviewDiff | scripts/ai_pr_assistant.py:140-163 | stripping the framed diff prompt keeps the digest whole |
| PrAssistant.FramedReviewSummaries | scripts/ai_pr_assistant.py:165-180 | stripping the framed summary prompt keeps the summaries whole |
| PrAssistant.FramedReviewCommits | scripts/ai_pr_assistant.py:182-194 | stripping the framed commit prompt keeps the commit text whole |
| PrAssistant.FramedDescriptionDiff | scripts/ai_pr_assistant.py:199-226 | the same for the description's diff prompt |
| PrAssistant.FramedDescriptionSummaries | scripts/ai_pr_assistant.py:228-250 | the same for the description's summary prompt |
| PrAssistant.FramedDescriptionCommits | scripts/ai_pr_assistant.py:252-267 | the same for the description's commit prompt |
| Upsert.UpsertAppends | scripts/ai_pr_assistant.py:114-118 | with no marked block, the result is the body, then the separator (only when the body has text), then the new block |
| Upsert.EmptyMarkersLength | scripts/ai_pr_assistant.py:105-118 | with both markers empty, the result for a body of `n` characters is as long as `2 * n + 1` blocks, whatever the body holds |
| Upsert.UpsertReplaces | scripts/ai_pr_assistant.py:109-116 | a body made of text without a begin marker, a marked block and the rest becomes that text, the new block and the rest with its own blocks replaced |
| Upsert.BlockReplaced | scripts/ai_pr_assistant.py:109-116 | the same replacement for any markers whose first character appears nowhere else in them and whose end marker neither starts nor ends with a line break |
| Upsert.UpsertKeepsBlock | scripts/ai_pr_assistant.py:105-118 | after an update without a dangling begin marker, the body has a complete marked block |
| Upsert.UpsertIdempotent | scripts/ai_pr_assistant.py:105-118 | updating twice with the same content equals updating once, for content without an end marker and a body with no dangling begin marker |
| Upsert.DanglingBeginBreaksIdempotence | scripts/ai_pr_assistant.py:115-118 | for a body that is only a begin marker, a second update differs from the first: idempotence fails as written |
| Upsert.DanglingBegin | scripts/ai_pr_assistant.py:109-118 | for any non-blank begin marker alone in the body and content not starting with a line break, the second update changes the body again |
| Upsert.FixedAgrees | scripts/ai_pr_assistant.py:105-118 | the corrected update equals the original on every body without a dangling begin marker |
| Upsert.FixedIdempotent | scripts/ai_pr_assistant.py:105-118 | the corrected update is idempotent on every body, for content without an end marker |
| Upsert.MarkersFit | scripts/ai_pr_assistant.py:42-43 | each marker starts with `<`, which appears nowhere else in it, and has no line break |
| GitHub.ReplyTextSpec | scripts/ai_pr_assistant.py:128-131 | the kept text has no outer whitespace; a failed call or null content gives the failure text; trimmed content is kept as it is |
| GitHub.ChatClient.Complete | scripts/ai_pr_assistant.py:123-127 | the reply is the service's answer to the prompt, and the prompt is recorded |
| GitHub.PullRequest.Edit | scripts/ai_pr_assistant.py:294 | the body becomes the new text |
| GitHub.PullRequest.CreateIssueComment | scripts/ai_pr_assistant.py:309 | the comment is appended to the comments |
| PrAssistantRun.ReviewTextSpec | scripts/ai_pr_assistant.py:300-306 | the posted review is non-empty and trimmed; a failed call or blank content gives the failure text; trimmed non-empty content gives itself |
| PrAssistantRun.DescribedTwice | scripts/ai_pr_assistant.py:291-296 | a second description step with the same text leaves the body as the first one did, for text without an end marker and a body without a begin marker that lacks an end marker after it |
| PrAssistantRun.DescribedTwiceDangling | scripts/ai_pr_assistant.py:291-296 | on a body that is only the begin marker, a second step with the text "x" changes the body again, so the exclusion above is needed |
| PrAssistantRun.DescribedHoldsBlock | scripts/ai_pr_assistant.py:291-296 | a non-empty text always ends up in the body inside a complete marked block, whether the update replaced or appended |
| PrAssistantRun.Run | scripts/ai_pr_assistant.py:282-313 | the description request comes first, then the review request; for a non-empty answer the body becomes `upsert_block` of the old body, otherwise it is unchanged; one comment is posted whenever the review step is on |
| PrDescription.Prompt | scripts/generate_pr_description.py:143-239 | there is no prompt (the template path) exactly when all three signals are empty |
| PrDescription.PromptEmbeds | scripts/generate_pr_description.py:143-217 | the prompt holds the chosen signal's text verbatim |
| PrDescription.Label | scripts/generate_pr_description.py:234-259 | the divider says diff-based, file-summary, commits or template exactly for the signal used |
| PrDescription.AdditionSpec | scripts/generate_pr_description.py:218-253 | with no signal the section is the template, whatever the service would answer; otherwise it is trimmed, and is the failure text when the call fails |
| PrDescription.NewBodyAppends | scripts/generate_pr_description.py:258-261 | the old body is kept unchanged at the front; the new body is strictly longer and continues with the divider and the generated section |
| PrDescription.RerunStacks | scripts/generate_pr_description.py:258-261 | running the script twice stacks two sections: the first run's body is a strict prefix of the second's |
| PrDescription.Describe | scripts/generate_pr_description.py:115-264 | the body becomes `NewBody` of the old body; the service is asked once, or not at all on the template path |
| CodeReview.PromptEmbeds | scripts/generate_code_review.py:110-173 | the prompt holds the chosen signal's text verbatim, and is the checklist request exactly when there is no signal |
| CodeReview.CommentRoundTrip | scripts/generate_code_review.py:193 | the posted comment gives back exactly the review it was made from |
| CodeReview.ReviewTextSpec | scripts/generate_code_review.py:184-187 | the posted review has no outer whitespace, and is the failure text when the call fails |
| CodeReview.Review | scripts/generate_code_review.py:94-196 | the service is asked once with the prompt, and exactly one comment (header and review text) is added |

## Left out

- The query system's I/O is not modelled. That covers the HTTP transport (URL, headers, the 30-second timeout, JSON encoding; decoding is reduced to the answer shapes of `Answer`, and a body that is not JSON is taken to raise the `requests` decoding error, a `RequestException` from `requests` 2.27 on; any other JSON shape, such as a non-string content, is not modelled), printing, the `verbose` flag and the `__main__` demonstration blocks. The request's `temperature` is a float and is not modelled; the request keeps the URL, key, model, both messages and `max_tokens`.
- The MySQL server is an oracle: it gives a fixed answer to each request, whatever was run before. Transactions, autocommit and the connection timeout are not modelled, and neither is a driver exception raised by `commit` or `fetchall`.
- The repository's other query engine, its command-line front end and the remote manager's `config` module are not part of this model. The remote manager's `__enter__`/`__exit__` and the module-level `get_database_connection` (Gene/database.py:118-135) are covered by `Connect` and `Disconnect`; the module-level function is not modelled as a member.
- QueryEngine.Format: requires that a `list_tables` envelope hold no names. Rendering a list of strings as rows calls `.keys()` on a string, which raises in Python; that raise is not modelled.
- QueryEngine.SqlEngine.FormatResults: `max_rows` is a `nat`. Python's negative slice bounds in `data[:max_rows]` are not modelled here.
- Upsert.UpsertBlock: requires content and markers without backslashes. `re.sub` treats the block as a template, and its escape processing is not modelled. PrAssistantRun.Run carries the same requirement on the service's description text.
- Upsert.UpsertBlock: with an empty begin and end marker the expression is `.*?`. Python 3.7 and later replace the empty match before each character, the character itself and the empty match at the end, so the result is `2 * n + 1` blocks for a body of `n` characters (`Repeated`). Only its length is proved (`Upsert.EmptyMarkersLength`). The script's own markers are never empty.
- The linked-issue matcher and `strip`/`upper`/`lower` cover ASCII only. Python's `\d` and `str.strip` also accept other Unicode digits and spaces.
- The labels text, the commit messages and the file list are inputs (`PrContext`, `FileEntry`). The GitHub calls that fetch them are not modelled.
- The scripts' checks of their environment variables and `exit` messages are not modelled, and neither are the `try`/`except` handlers around `pr.edit` and `create_issue_comment` (the model's pull request never fails). The model name is not modelled either.
- The description script's call to `repo.compare` (scripts/generate_pr_description.py:127-135) is not modelled: its result is never used.
- PrHelpers.DiffHeadingsInOrder: states the order of the headings only. It does not state that each patch follows its heading.
- PrAssistant.DescriptionPromptPriority: compares whole prompts only, for contexts that agree on the fields each prompt uses.
- Behaviour of the code worth noting:
  - an empty schema gives the header line alone;
  - a write returns the one-row `affected_rows` table, and no line reports the affected count;
  - the summary signal is unreachable from a gathered context (`PrHelpers.SummariesNeverChosen`), though the prompts still handle it.

## Findings

| source | as written | input that shows it | evidently intended | confidence | as-written member | corrected member |
|---|---|---|---|---|---|---|
| scripts/ai_pr_assistant.py:105-118 | the marked-block update appends a new block whenever no complete block matches. A body holding a begin marker with no end marker after it therefore gains a block after the dangling marker. The next run then matches from the dangling marker to the new end marker, so the text between them disappears and the update is not idempotent | a body that is exactly the begin marker, updated twice with content "x" | the marker comment (line 41) promises idempotent updates: a dangling begin marker should start a block that runs to the end of the body and is replaced | not executed | Upsert.DanglingBeginBreaksIdempotence | Upsert.FixedIdempotent |
