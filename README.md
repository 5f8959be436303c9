# Log ETL pipeline core, modelled in Dafny

This project models the logic of a small batch pipeline. Raw application events are stored as
newline-delimited JSON, one file per execution date. The pipeline normalizes each file into log
records and upserts those records into a PostgreSQL table keyed on
`(timestamp, user_id, session_id)`. The model covers five parts:

- the path builders that name the raw and processed files of a partition (`FileUtils.dfy`);
- the hourly, daily and weekly time windows around a datetime (`DateUtils.dfy`);
- the split of records into those with all five required fields and the rest (`ValidationUtils.dfy`);
- the event-to-log normalization and the file-level transform (`SessionTransformer.dfy`);
- the loader: a chain of early exits, then a transaction that upserts, commits or rolls back, and
  always closes its cursor and connection (`LoadToPostgres.dfy`).

`JsonLines.dfy` gives the abstract view of a parsed file. `Pipeline.dfy` states what happens when
the loader reads what the transformer wrote.

Modelling choices:

- A file is a sequence of lines. Each line is blank, not JSON, or a parsed JSON value. A parsed
  value is an object whose values are strings or `null`, or any other value.
- The file system is a map from path to lines; a path that is not a key does not exist.
- A Python datetime is its ordinal day and its microsecond of the day. Its weekday is
  `(ordinal + 6) % 7`.
- The database is a `Database` object. It holds the committed table, the number of open
  connections and cursors, and the number of connections opened so far.
- A `Connection` object holds the table as its open transaction sees it. Commit copies that table
  into the database. Rollback and close drop it.
- Server behaviour that the code cannot see is an `Environment` input: whether connecting fails,
  whether `CREATE TABLE` fails, whether the server rejects the INSERT or COMMIT, and the
  transaction's `NOW()`.
- The source returns nothing. The loader's `Outcome` names the exit taken, which the source only
  shows through the line it logs.

Behaviour of the code that the model keeps:

- The transformer parses every line, so a blank raw line raises. The loader skips blank lines.
- `log.get` makes a missing field and a `null` field the same. An f-string prints `None` for both,
  so a missing event gives "User u performed None".
- The loader does not call `filter_valid_logs`. One record without a required key stops the whole
  load (the `KeyError` return) before anything is written, and it does not roll back.
  A record that is not an object raises `TypeError` instead; the outer handler rolls back.
- The UNIQUE constraint treats NULLs as distinct. A record with a `null` timestamp, user id or
  session id never conflicts, so loading it again adds another row. Reloading is idempotent only
  for records whose three key columns are non-null (`ReloadIsIdempotent`, `NullKeyIsInsertedAgain`).
- `execute_values` sends 100 rows per statement. PostgreSQL refuses a statement that upserts the
  same key twice, so such a batch fails and is rolled back. The same key in two different
  statements is applied in order, and the last one wins.
- `transform_logs` builds its input and output paths inline with the same `os.path.join`
  expressions as `get_raw_log_path` and `get_processed_log_path`. The model therefore uses
  `RawLogPath` and `ProcessedLogPath` there.
- `transform_logs` calls `os.makedirs` on the directory part of the output path. When that part is
  empty (an empty output directory and a date without '/'), the call raises.
- A time window whose end would pass 9999-12-31 is `None`, where Python raises `OverflowError`.

Where the repository's loader test and the loader disagree, the model follows the loader:

- `tests/test_load_to_postgres.py` patches `filter_valid_logs` in the loader's module, as if the
  loader filtered out invalid records and loaded the rest. The loader never calls it and loads
  nothing when one record lacks a key (`LoadIsAllOrNothing`).
- The same test expects a second `execute` call for an ETL metadata insert. The loader makes no
  such insert.

`transform_logs` has no per-record error handling: a raw line it cannot handle raises, and no
processed file is written.

## Model

| member | source | states |
|---|---|---|
| FileUtils.Join | common/file_utils.py:5-8 | `os.path.join`: the name ends the path; a relative name keeps the directory as a prefix, with exactly one '/' added unless the directory is empty or ends in '/' |
| FileUtils.RawLogPath | common/file_utils.py:3-5 | the raw path starts with the directory and ends with `log_<date>.jsonl` |
| FileUtils.ProcessedLogPath | common/file_utils.py:7-8 | the processed path starts with the directory and ends with `processed_<date>.jsonl` |
| FileUtils.JoinInjective | common/file_utils.py:5-8 | under one directory, two relative names give the same path only if they are equal |
| FileUtils.RawAndProcessedPathsDiffer | common/file_utils.py:3-8 | a raw path never equals a processed path, for any two dates |
| FileUtils.RawLogPathInjective | common/file_utils.py:3-5 | under one directory, different dates give different raw paths |
| FileUtils.ProcessedLogPathInjective | common/file_utils.py:7-8 | under one directory, different dates give different processed paths |
| DateUtils.DateTime.Weekday | common/date_utils.py:11 | `weekday()` lies in 0..6 |
| DateUtils.AddTimedelta | common/date_utils.py:8-17 | adding a timedelta moves the instant by exactly that amount; it fails exactly when the result passes 9999-12-31 |
| DateUtils.GetTimeScopeFilterRange | common/date_utils.py:3-19 | start ≤ dt < end, and end − start is 1 hour, 7 days or 1 day. Hourly starts at the top of dt's hour; weekly at the Monday midnight on or before dt; any other granularity at dt's midnight. Each case states exactly when its end overflows. |
| DateUtils.DefaultGranularityIsDaily | common/date_utils.py:3 | omitting the granularity is the same as "daily" |
| DateUtils.WeekStartInRange | common/date_utils.py:11 | subtracting the weekday never goes before ordinal 1 |
| ValidationUtils.HasRequiredFields | common/validation_utils.py:5-12 | a record is valid iff its keys include timestamp, level, message, user_id and session_id (`REQUIRED_LOG_FIELDS`); a `null` value counts as present |
| ValidationUtils.FilterValidLogs | common/validation_utils.py:7-18 | the loop builds exactly the valid and the invalid sublists. They are complete and disjoint (multiset sum), keep the input order, and every valid record has all five fields while every invalid one lacks one |
| ValidationUtils.ValidOfSound | common/validation_utils.py:5-13 | every kept record has timestamp, level, message, user_id and session_id |
| ValidationUtils.InvalidOfSound | common/validation_utils.py:12-15 | every set-aside record lacks at least one required field |
| ValidationUtils.PartitionIsPermutation | common/validation_utils.py:11-16 | each record lands in exactly one list: multisets add up and lengths sum to the input's |
| ValidationUtils.PartitionKeepsOrder | common/validation_utils.py:11-15 | both lists are subsequences of the input |
| ValidationUtils.NothingInvalid | common/validation_utils.py:11-16 | nothing is set aside iff every record has all fields, and then every record is kept |
| ValidationUtils.ClassifiedByRequiredKeys | common/validation_utils.py:12 | only which required keys are present matters, not their values or other keys |
| SessionTransformer.RawEventOf | etl/transform/session_transformer.py:17-18 | the four `log.get` lookups; absent and `null` both become `None` |
| SessionTransformer.MapEventToLevel | etl/transform/session_transformer.py:6-14 | the level is info, critical or debug. It is critical iff the event is "purchase" and debug iff it is "view"; login and logout give info |
| JsonLines.Get | etl/transform/session_transformer.py:17-18 | `dict.get`: a value is found iff the key is present and not `null`, and then it is that value |
| SessionTransformer.Show | etl/transform/session_transformer.py:20-28 | an f-string prints a string as itself and `None` as "None", so "None" is printed exactly for a missing value and for the string "None" |
| SessionTransformer.GenerateMessage | etl/transform/session_transformer.py:16-28 | every message starts "User <user> ", with `None` printed for a missing user; login, logout, purchase and view give their fixed phrase, and any other event, a missing one included, gives "performed <event>" |
| SessionTransformer.MessageDeterminesEvent | etl/transform/session_transformer.py:16-28 | for one user, two events give the same message iff they print the same |
| SessionTransformer.ActionDeterminesEvent | etl/transform/session_transformer.py:19-28 | the phrase after the user name determines how the event prints |
| SessionTransformer.Normalize | etl/transform/session_transformer.py:41-47 | timestamp, user_id and session_id are copied verbatim; level and message are derived from the event |
| SessionTransformer.ToRecord | etl/transform/session_transformer.py:41-47 | the written record always has exactly the five keys, `null` where the raw field was missing |
| SessionTransformer.Serialize | etl/transform/session_transformer.py:51-53 | one JSON object line per record, in order |
| SessionTransformer.ParseAll | etl/transform/session_transformer.py:35-36 | reading succeeds iff every line, blank ones included, is JSON, and then gives one value per line |
| SessionTransformer.ReadRawEvents | etl/transform/session_transformer.py:35-46 | a decode error iff some line is not JSON; otherwise an error iff some value is not an object; otherwise one raw event per line |
| SessionTransformer.NormalizeAll | etl/transform/session_transformer.py:38-47 | same length and order as the raw events, each normalized |
| SessionTransformer.TransformResult | etl/transform/session_transformer.py:31-53 | a missing input raises not-found, and a read error of the raw file is raised as is. If the raw file reads but the output path has no directory part, `os.makedirs` raises. The call succeeds iff none of these happens; then only the processed file changes, rewritten with the normalized events of the raw file |
| SessionTransformer.TransformRecords | etl/transform/session_transformer.py:38-47 | the loop appends one normalized record per raw value, in order, and fails iff some value is not an object |
| SessionTransformer.TransformLogs | etl/transform/session_transformer.py:31-53 | the method's effect is `TransformResult` |
| SessionTransformer.EmptyRawFileGivesEmptyProcessedFile | etl/transform/session_transformer.py:31-53 | an empty raw file gives an existing, empty processed file |
| SessionTransformer.LoginExample | tests/test_session_transformer.py:13-40 | the test's login event for user_1 gives level "info" and message "User user_1 logged in" |
| LoadToPostgres.ParseNonBlank | etl/load/load_to_postgres.py:24-30 | fails iff some non-blank line is not JSON; gives nothing iff every line is blank; on success gives the values of the non-blank lines, in order (a subsequence with one value per non-blank line) |
| LoadToPostgres.ValuesOf | etl/load/load_to_postgres.py:62-70 | the tuple carries the record's five values, `null` as NULL |
| LoadToPostgres.ExtractValues | etl/load/load_to_postgres.py:61-73 | succeeds iff every record is an object with all five keys, with one tuple per record. Otherwise the first bad record decides between `KeyError` (an object) and `TypeError` |
| LoadToPostgres.DuplicateInPage | etl/load/load_to_postgres.py:87 | for a batch of at most 100 tuples (one statement), a refusal iff two tuples share a complete key; a batch whose complete keys are all distinct is never refused |
| LoadToPostgres.UpsertRow | etl/load/load_to_postgres.py:75-83 | a new complete key adds one row with created_at = now; an existing key gets the new level and message and keeps created_at; other rows are unchanged; a key with a NULL column is appended |
| LoadToPostgres.UpsertAll | etl/load/load_to_postgres.py:56-87 | the upsert keeps the table valid: at most one row per complete key |
| LoadToPostgres.LastFor | etl/load/load_to_postgres.py:75-83 | the chosen tuple is in the batch, has the key, and no later tuple has it; none is chosen iff no tuple has the key |
| LoadToPostgres.UpsertAllAt | etl/load/load_to_postgres.py:75-87 | after the bulk upsert, a complete key is present iff it was before or the batch has it. The last tuple with that key gives level and message, and created_at is kept for an old key |
| LoadToPostgres.UpsertAllUnkeyed | etl/load/load_to_postgres.py:56-87 | rows with a NULL key column are only ever appended, one per such tuple |
| LoadToPostgres.UpsertIdempotent | etl/load/load_to_postgres.py:75-83 | upserting a batch without NULL key columns a second time changes nothing |
| LoadToPostgres.NullKeyIsInsertedAgain | etl/load/load_to_postgres.py:56 | a tuple with a NULL key column is stored once per load |
| LoadToPostgres.Connection.Connect | etl/load/load_to_postgres.py:42 | opens one more connection, whose transaction starts from the committed table |
| LoadToPostgres.Connection.OpenCursor | etl/load/load_to_postgres.py:43 | opens one cursor and changes no data |
| LoadToPostgres.Connection.CreateTable | etl/load/load_to_postgres.py:47-58 | fails only as the environment says, and a failure aborts the transaction |
| LoadToPostgres.Connection.ExecuteValues | etl/load/load_to_postgres.py:85-87 | succeeds iff no statement of 100 rows repeats a complete key and the server accepts it. On success the transaction's table is the upsert of the batch; on failure the transaction is aborted |
| LoadToPostgres.Connection.Commit | etl/load/load_to_postgres.py:88 | the transaction's table becomes the committed one |
| LoadToPostgres.Connection.Rollback | etl/load/load_to_postgres.py:91-97 | the transaction's changes are dropped |
| LoadToPostgres.Connection.CloseCursor | etl/load/load_to_postgres.py:101-102 | one cursor fewer is open; the open transaction and the committed data are unchanged |
| LoadToPostgres.Connection.Close | etl/load/load_to_postgres.py:103-104 | one connection fewer is open; uncommitted changes are dropped |
| LoadToPostgres.DatabaseOutcome | etl/load/load_to_postgres.py:37-106 | each exit happens exactly when its step is the first to fail: connect, then `CREATE TABLE`, then a record without a key (`KeyError`) or not an object (`TypeError`), then the upsert or commit (a server rejection, or a statement repeating a key). Otherwise it commits and counts every record |
| LoadToPostgres.LoadOutcome | etl/load/load_to_postgres.py:14-106 | exits early iff the file is absent, a non-blank line is not JSON, or all lines are blank, and then opens no connection. Otherwise the exit is the database step's on the parsed records; a commit covers every parsed record, and all of them have all fields |
| LoadToPostgres.Batch | etl/load/load_to_postgres.py:62-70 | the batch is exactly the extracted tuples of the parsed processed file whenever it parses and every record extracts; a non-empty batch only arises that way |
| LoadToPostgres.LoadedTable | etl/load/load_to_postgres.py:75-92 | the table is unchanged unless the call commits. After a commit each complete key is present iff it was before or the batch has it, with the last tuple's level and message, created_at kept for an old key and NOW() for a new one; each tuple with a NULL key column is appended as a row |
| LoadToPostgres.WriteLogs | etl/load/load_to_postgres.py:37-106 | the database part: its exit is `DatabaseOutcome`; the table is the upsert if it committed and unchanged otherwise; every cursor and connection it opened is closed |
| LoadToPostgres.LoadLogsToPostgres | etl/load/load_to_postgres.py:14-106 | its exit is `LoadOutcome` and the table is `LoadedTable`. A connection is opened only on the exits after connecting, and none is left open |
| LoadToPostgres.ReloadIsIdempotent | etl/load/load_to_postgres.py:75-92 | after a committed load, loading the same file again, with a commit or not, leaves the table as it was (no NULL key columns) |
| LoadToPostgres.LoadIsAllOrNothing | etl/load/load_to_postgres.py:61-73 | if `filter_valid_logs` would set any record aside, the load does not commit and the table is unchanged; a commit means it would keep them all |
| Pipeline.StoredValues | etl/load/load_to_postgres.py:62-70 | the tuple of a normalized record has its key columns and its level and message |
| Pipeline.StoredBatch | etl/load/load_to_postgres.py:62-70 | one tuple per normalized record, in order |
| Pipeline.NormalizedRecordIsValid | common/validation_utils.py:5-12 | every record the transformer writes has all required fields |
| Pipeline.SerializedFileExtracts | etl/load/load_to_postgres.py:24-70 | a file the transformer wrote parses, and every record in it yields its tuple |
| Pipeline.LoadSerialized | etl/load/load_to_postgres.py:14-92 | loading such a file: nothing to load when it is empty; otherwise it commits every record or fails in the database, never on a field or record shape |
| Pipeline.TransformThenLoad | etl/transform/session_transformer.py:31-53 | transform then load: one tuple per raw event, with the derived level and message, is sent and committed, or the load fails in the database, or there is nothing to load for an empty raw file |

## Left out

- Event generators (`etl/extract/`), the DAG files, the Slack alert and `common/db_config.py`: random data, wall clock, HTTP and environment variables, with no logic to state beyond the record shape.
- JSON text, file opening and writing, logging calls and the final `print`: files are abstract line sequences. A file that exists but cannot be opened is not modelled.
- JSON values other than strings and `null` inside records: they would print and insert differently.
- `os.makedirs` failures other than an empty directory part (for example, a file in the way).
- `LoadToPostgres.Connection.CreateTable`: whether `processed_logs` existed before is not modelled, so neither is the loss of an uncommitted `CREATE TABLE` on the `KeyError` exit.
- `LoadToPostgres.Connection.ExecuteValues`: TIMESTAMPTZ parsing, VARCHAR(20)/VARCHAR(50) limits (including PostgreSQL's truncation of trailing spaces) and other server rejections are one environment input; timestamps are compared as strings, not instants.
- `LoadToPostgres.DatabaseOutcome`: a failure of `conn.cursor()` after a successful connect counts as a failed connect, so that connection is not counted as opened.
- The `id SERIAL` column and the sequence values it consumes.
- Exceptions raised by `rollback`, `cursor.close` or `conn.close`: they are assumed to succeed.
- Concurrent loads racing on the same keys.
- Time zones and the `fold` attribute: datetimes are naive wall-clock values.
- The run-metadata (`etl_runs`) row and the loader's use of `filter_valid_logs`, which only the tests expect; the loader shown has neither.
- Patch targets in the tests that the modules do not define.
