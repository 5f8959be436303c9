/**
 * `etl/load/load_to_postgres.py`: reading the processed file of a partition
 * and upserting its records into the `processed_logs` table.
 *
 * The PostgreSQL server is modelled by its committed table, the number of
 * connections and cursors open on it, and the number of connections ever
 * opened. A connection holds the table as its open transaction sees it.
 * Whether the server fails to connect, to create the table or to accept the
 * INSERT (a timestamp it cannot parse, a value too long for its column, a
 * lost connection) is an input of the model, an `Environment`.
 */
module LoadToPostgres {
  import opened Wrappers
  import opened JsonLines
  import opened FileUtils
  import opened ValidationUtils

  /** `execute_values` sends its rows in statements of at most this many (its `page_size`). */
  const PageSize: int := 100

  /** The columns of the `uniq_log_event` constraint: (timestamp, user_id, session_id). */
  datatype Key = Key(timestamp: Option<string>, userId: Option<string>, sessionId: Option<string>) {
    /**
     * A UNIQUE constraint treats NULLs as distinct, so only a key with no
     * NULL column can conflict with another row.
     */
    predicate Complete() {
      timestamp.Some? && userId.Some? && sessionId.Some?
    }
  }

  /** One tuple of `values`: the five columns in the order of the INSERT. */
  datatype Values = Values(
    timestamp: Option<string>,
    level: Option<string>,
    message: Option<string>,
    userId: Option<string>,
    sessionId: Option<string>)
  {
    function ConflictKey(): Key {
      Key(timestamp, userId, sessionId)
    }
  }

  /** The non-key columns of a stored row (`id` is not modelled). */
  datatype Row = Row(level: Option<string>, message: Option<string>, createdAt: int)

  /**
   * `processed_logs`: rows with a complete key, at most one per key, and the
   * rows with a NULL key column, which never conflict, in insertion order.
   */
  datatype Table = Table(keyed: map<Key, Row>, unkeyed: seq<(Key, Row)>) {
    predicate Valid() {
      && (forall k :: k in keyed ==> k.Complete())
      && (forall i :: 0 <= i < |unkeyed| ==> !unkeyed[i].0.Complete())
    }
  }

  /** What the server may do differently from one call to the next. */
  datatype Environment = Environment(
    connectFails: bool,   // psycopg2.connect or conn.cursor raises
    createFails: bool,    // CREATE TABLE IF NOT EXISTS raises
    insertFails: bool,    // the server rejects the INSERT or the COMMIT
    now: int)             // NOW() of the transaction, stored in created_at

  /** Which exit `load_logs_to_postgres` takes (each one logs a different line). */
  datatype Outcome =
    | FileMissing      // no processed file: warning, return
    | ReadFailed       // a non-blank line is not JSON: error, return
    | NoLogs           // no records: info, return
    | ConnectFailed    // connecting failed: error, nothing to close
    | SetupFailed      // CREATE TABLE failed: rollback, close
    | MissingField     // KeyError while building `values`: return, close
    | MalformedRecord  // a record that is not an object (TypeError): rollback, close
    | InsertFailed     // the bulk upsert or commit failed: rollback, close
    | Loaded(count: nat)  // committed
  {
    /** True on the exits taken after `psycopg2.connect` succeeded. */
    predicate Connected() {
      !(FileMissing? || ReadFailed? || NoLogs? || ConnectFailed?)
    }
  }

  /** Why building `values` raises. */
  datatype ExtractError = KeyMissing | NotSubscriptable

  /** The lines a sequence of parsed values would come from. */
  function AsLines(logs: seq<Json>): seq<Line> {
    seq(|logs|, i requires 0 <= i < |logs| => Value(logs[i]))
  }

  /**
   * `[json.loads(line) for line in f if line.strip()]`: blank lines are
   * skipped, not parsed; every other line is parsed, in order.
   */
  function ParseNonBlank(lines: seq<Line>): (r: Option<seq<Json>>)
    ensures r.None? <==> exists i :: 0 <= i < |lines| && lines[i].Malformed?
    ensures r == Some([]) <==> forall i :: 0 <= i < |lines| ==> lines[i].Blank?
    ensures r.Some? ==> IsSubsequence(AsLines(r.value), lines) &&
                        |r.value| == |lines| - multiset(lines)[Blank]
    ensures (forall i :: 0 <= i < |lines| ==> lines[i].Value?) ==>
              r.Some? && |r.value| == |lines| &&
              forall i :: 0 <= i < |lines| ==> lines[i] == Value(r.value[i])
  {
    if lines == [] then Some([])
    else
      var init, last := lines[..|lines| - 1], lines[|lines| - 1];
      assert lines == init + [last];
      match ParseNonBlank(init)
      case None => None
      case Some(rest) =>
        match last
        case Blank => Some(rest)
        case Malformed => None
        case Value(v) =>
          assert AsLines(rest + [v])[..|rest|] == AsLines(rest);
          Some(rest + [v])
  }

  /** A record that makes building `values` raise. */
  predicate Unloadable(log: Json) {
    log.NonObject? || !HasRequiredFields(log.fields)
  }

  /** The tuple of one record that has every required key; a `null` becomes NULL. */
  function ValuesOf(log: Record): (v: Values)
    requires HasRequiredFields(log)
    ensures v.ConflictKey() == Key(log["timestamp"], log["user_id"], log["session_id"])
    ensures v.level == log["level"] && v.message == log["message"]
  {
    Values(log["timestamp"], log["level"], log["message"], log["user_id"], log["session_id"])
  }

  /**
   * The list comprehension that builds `values`: it succeeds only if every
   * record is an object with all five keys, and otherwise raises for the
   * first record that is not.
   */
  function ExtractValues(logs: seq<Json>): (r: Result<seq<Values>, ExtractError>)
    ensures r.Ok? <==> forall i :: 0 <= i < |logs| ==> !Unloadable(logs[i])
    ensures r.Ok? ==> |r.value| == |logs| &&
                      forall i :: 0 <= i < |logs| ==> r.value[i] == ValuesOf(logs[i].fields)
    ensures r.Err? ==> exists i :: 0 <= i < |logs| && Unloadable(logs[i]) &&
                                   (forall j :: 0 <= j < i ==> !Unloadable(logs[j])) &&
                                   (r.error == KeyMissing <==> logs[i].Object?)
  {
    if logs == [] then Ok([])
    else match logs[0]
      case NonObject => Err(NotSubscriptable)
      case Object(fields) =>
        if !HasRequiredFields(fields) then Err(KeyMissing)
        else match ExtractValues(logs[1..])
          case Err(e) => Err(e)
          case Ok(rest) => Ok([ValuesOf(fields)] + rest)
  }

  /**
   * Two tuples sent in one statement share a complete key; PostgreSQL then
   * refuses the statement ("ON CONFLICT DO UPDATE command cannot affect row
   * a second time").
   */
  predicate DuplicateInPage(values: seq<Values>)
    ensures |values| <= PageSize ==>
              (DuplicateInPage(values) <==>
                 exists i, j :: 0 <= i < j < |values| && values[i].ConflictKey().Complete() &&
                                values[i].ConflictKey() == values[j].ConflictKey())
    ensures (forall i, j :: 0 <= i < j < |values| && values[i].ConflictKey().Complete() ==>
                              values[i].ConflictKey() != values[j].ConflictKey()) ==> !DuplicateInPage(values)
  {
    exists i, j :: 0 <= i < j < |values| && i / PageSize == j / PageSize &&
                   values[i].ConflictKey().Complete() && values[i].ConflictKey() == values[j].ConflictKey()
  }

  /** INSERT one tuple ... ON CONFLICT (timestamp, user_id, session_id) DO UPDATE SET level, message. */
  function UpsertRow(t: Table, v: Values, now: int): (r: Table)
    requires t.Valid()
    ensures r.Valid()
    ensures var k := v.ConflictKey();
            k.Complete() ==> r.unkeyed == t.unkeyed && r.keyed.Keys == t.keyed.Keys + {k}
    ensures var k := v.ConflictKey();
            k.Complete() && k in t.keyed ==>
              r.keyed[k] == Row(v.level, v.message, t.keyed[k].createdAt) && |r.keyed| == |t.keyed|
    ensures var k := v.ConflictKey();
            k.Complete() && k !in t.keyed ==>
              r.keyed[k] == Row(v.level, v.message, now) && |r.keyed| == |t.keyed| + 1
    ensures forall k :: k in t.keyed && k != v.ConflictKey() ==> k in r.keyed && r.keyed[k] == t.keyed[k]
    ensures !v.ConflictKey().Complete() ==>
              r.keyed == t.keyed && r.unkeyed == t.unkeyed + [(v.ConflictKey(), Row(v.level, v.message, now))]
  {
    var k := v.ConflictKey();
    if !k.Complete() then
      t.(unkeyed := t.unkeyed + [(k, Row(v.level, v.message, now))])
    else if k in t.keyed then
      t.(keyed := t.keyed[k := t.keyed[k].(level := v.level, message := v.message)])
    else
      t.(keyed := t.keyed[k := Row(v.level, v.message, now)])
  }

  /** The bulk upsert of `values`, tuple after tuple. */
  function UpsertAll(t: Table, values: seq<Values>, now: int): (r: Table)
    requires t.Valid()
    ensures r.Valid()
  {
    if values == [] then t
    else UpsertRow(UpsertAll(t, values[..|values| - 1], now), values[|values| - 1], now)
  }

  /** The last tuple of `values` with key `k`, which decides that row's level and message. */
  function LastFor(values: seq<Values>, k: Key): (r: Option<Values>)
    ensures r.Some? ==> r.value in values && r.value.ConflictKey() == k
    ensures r.Some? ==> exists i :: 0 <= i < |values| && values[i] == r.value &&
                                   forall j :: i < j < |values| ==> values[j].ConflictKey() != k
    ensures r.None? <==> forall i :: 0 <= i < |values| ==> values[i].ConflictKey() != k
  {
    if values == [] then None
    else if values[|values| - 1].ConflictKey() == k then Some(values[|values| - 1])
    else LastFor(values[..|values| - 1], k)
  }

  /** The rows with a NULL key column that the upsert of `values` appends. */
  function UnkeyedRows(values: seq<Values>, now: int): seq<(Key, Row)> {
    if values == [] then []
    else
      var v := values[|values| - 1];
      UnkeyedRows(values[..|values| - 1], now) +
      (if v.ConflictKey().Complete() then [] else [(v.ConflictKey(), Row(v.level, v.message, now))])
  }

  /**
   * What the bulk upsert does to each complete key: the key is present
   * afterwards iff it was before or the batch has it; the last tuple with
   * that key sets level and message; created_at is kept for a key that was
   * present and is `now` for a new one; keys the batch lacks keep their row.
   */
  lemma {:induction false} UpsertAllAt(t: Table, values: seq<Values>, now: int, k: Key)
    requires t.Valid() && k.Complete()
    ensures var r := UpsertAll(t, values, now);
            && (k in r.keyed <==> k in t.keyed || LastFor(values, k).Some?)
            && (k in r.keyed ==>
                  r.keyed[k] == match LastFor(values, k)
                                case None => t.keyed[k]
                                case Some(v) =>
                                  Row(v.level, v.message, if k in t.keyed then t.keyed[k].createdAt else now))
  {
    if values != [] {
      UpsertAllAt(t, values[..|values| - 1], now, k);
    }
  }

  /** `UpsertAllAt` for every complete key at once. */
  lemma UpsertAllEverywhere(t: Table, values: seq<Values>, now: int)
    requires t.Valid()
    ensures var r := UpsertAll(t, values, now);
            forall k: Key | k.Complete() ::
              && (k in r.keyed <==> k in t.keyed || LastFor(values, k).Some?)
              && (k in r.keyed ==>
                    r.keyed[k] == match LastFor(values, k)
                                  case None => t.keyed[k]
                                  case Some(v) =>
                                    Row(v.level, v.message, if k in t.keyed then t.keyed[k].createdAt else now))
  {
    forall k: Key | k.Complete()
      ensures var r := UpsertAll(t, values, now);
              && (k in r.keyed <==> k in t.keyed || LastFor(values, k).Some?)
              && (k in r.keyed ==>
                    r.keyed[k] == match LastFor(values, k)
                                  case None => t.keyed[k]
                                  case Some(v) =>
                                    Row(v.level, v.message, if k in t.keyed then t.keyed[k].createdAt else now))
    {
      UpsertAllAt(t, values, now, k);
    }
  }

  /** The upsert appends one row per tuple whose key has a NULL column. */
  lemma {:induction false} UpsertAllUnkeyed(t: Table, values: seq<Values>, now: int)
    requires t.Valid()
    ensures UpsertAll(t, values, now).unkeyed == t.unkeyed + UnkeyedRows(values, now)
  {
    if values != [] {
      UpsertAllUnkeyed(t, values[..|values| - 1], now);
    }
  }

  lemma {:induction false} UnkeyedRowsOfCompleteBatch(values: seq<Values>, now: int)
    requires forall i :: 0 <= i < |values| ==> values[i].ConflictKey().Complete()
    ensures UnkeyedRows(values, now) == []
  {
    if values != [] {
      UnkeyedRowsOfCompleteBatch(values[..|values| - 1], now);
    }
  }

  /**
   * Upserting the same batch again changes nothing, whatever the second
   * transaction's NOW(), provided no tuple has a NULL key column.
   */
  lemma UpsertIdempotent(t: Table, values: seq<Values>, now: int, later: int)
    requires t.Valid()
    requires forall i :: 0 <= i < |values| ==> values[i].ConflictKey().Complete()
    ensures UpsertAll(UpsertAll(t, values, now), values, later) == UpsertAll(t, values, now)
  {
    var once := UpsertAll(t, values, now);
    var twice := UpsertAll(once, values, later);
    UpsertAllUnkeyed(t, values, now);
    UpsertAllUnkeyed(once, values, later);
    UnkeyedRowsOfCompleteBatch(values, now);
    UnkeyedRowsOfCompleteBatch(values, later);
    forall k | k in twice.keyed || k in once.keyed
      ensures k in twice.keyed && k in once.keyed && twice.keyed[k] == once.keyed[k]
    {
      UpsertAllAt(t, values, now, k);
      UpsertAllAt(once, values, later, k);
    }
    assert twice.keyed == once.keyed;
  }

  /**
   * A tuple with a NULL key column never conflicts: loading it twice stores
   * two rows, so reloading is idempotent only for complete keys.
   */
  lemma NullKeyIsInsertedAgain(t: Table, v: Values, now: int, later: int)
    requires t.Valid() && !v.ConflictKey().Complete()
    ensures |UpsertAll(UpsertAll(t, [v], now), [v], later).unkeyed| == |t.unkeyed| + 2
  {
    assert [v][..0] == [];
  }

  /** The server as one call of the loader sees it. */
  class Database {
    var table: Table
    var openConnections: nat
    var openCursors: nat
    var connects: nat  // connections opened so far

    constructor (t: Table)
      requires t.Valid()
      ensures table == t && openConnections == 0 && openCursors == 0 && connects == 0
    {
      table, openConnections, openCursors, connects := t, 0, 0, 0;
    }
  }

  /** A psycopg2 connection with its cursor and its open transaction. */
  class Connection {
    const db: Database
    var open: bool
    var cursorOpen: bool
    var pending: Table  // the table as the open transaction sees it
    var aborted: bool   // a statement failed: only a rollback is accepted

    ghost predicate Valid()
      reads this, db
    {
      db.table.Valid() && pending.Valid() && (open ==> db.openConnections >= 1) &&
      (cursorOpen ==> open && db.openCursors >= 1)
    }

    /** `psycopg2.connect(...)`: a new session whose transaction starts from the committed table. */
    constructor Connect(db: Database)
      requires db.table.Valid()
      modifies db
      ensures Valid() && this.db == db && open && !cursorOpen && !aborted && pending == db.table
      ensures db.table == old(db.table) && db.openCursors == old(db.openCursors)
      ensures db.openConnections == old(db.openConnections) + 1 && db.connects == old(db.connects) + 1
    {
      this.db := db;
      open, cursorOpen, pending, aborted := true, false, db.table, false;
      new;
      db.openConnections := db.openConnections + 1;
      db.connects := db.connects + 1;
    }

    /** `conn.cursor()`. */
    method OpenCursor()
      requires Valid() && open && !cursorOpen
      modifies this, db
      ensures Valid() && open && cursorOpen
      ensures pending == old(pending) && aborted == old(aborted)
      ensures db.table == old(db.table) && db.openConnections == old(db.openConnections)
      ensures db.openCursors == old(db.openCursors) + 1 && db.connects == old(db.connects)
    {
      cursorOpen := true;
      db.openCursors := db.openCursors + 1;
    }

    /** `cursor.execute(CREATE TABLE IF NOT EXISTS ...)`; whether the table existed is not modelled. */
    method CreateTable(fails: bool) returns (ok: bool)
      requires Valid() && cursorOpen && !aborted
      modifies this
      ensures Valid() && ok == !fails && aborted == fails
      ensures open == old(open) && cursorOpen == old(cursorOpen) && pending == old(pending)
    {
      ok := !fails;
      aborted := fails;
    }

    /** `execute_values(cursor, insert_query, values)`: the bulk upsert, page by page. */
    method ExecuteValues(values: seq<Values>, serverFails: bool, now: int) returns (ok: bool)
      requires Valid() && cursorOpen && !aborted
      modifies this
      ensures Valid() && open == old(open) && cursorOpen == old(cursorOpen)
      ensures ok == (!DuplicateInPage(values) && !serverFails)
      ensures ok ==> !aborted && pending == UpsertAll(old(pending), values, now)
      ensures !ok ==> aborted && pending == old(pending)
    {
      ok := !DuplicateInPage(values) && !serverFails;
      if ok {
        pending := UpsertAll(pending, values, now);
      } else {
        aborted := true;
      }
    }

    /** `conn.commit()`: the transaction's table becomes the committed one. */
    method Commit()
      requires Valid() && open && !aborted
      modifies db
      ensures Valid() && db.table == pending
      ensures db.openConnections == old(db.openConnections) && db.openCursors == old(db.openCursors)
      ensures db.connects == old(db.connects)
    {
      db.table := pending;
    }

    /** `conn.rollback()`: the transaction's changes are dropped. */
    method Rollback()
      requires Valid() && open
      modifies this
      ensures Valid() && pending == db.table && !aborted
      ensures open == old(open) && cursorOpen == old(cursorOpen)
    {
      pending, aborted := db.table, false;
    }

    /** `cursor.close()`. */
    method CloseCursor()
      requires Valid() && cursorOpen
      modifies this, db
      ensures Valid() && !cursorOpen && open == old(open)
      ensures pending == old(pending) && aborted == old(aborted)
      ensures db.table == old(db.table) && db.openConnections == old(db.openConnections)
      ensures db.openCursors == old(db.openCursors) - 1 && db.connects == old(db.connects)
    {
      cursorOpen := false;
      db.openCursors := db.openCursors - 1;
    }

    /** `conn.close()`: an uncommitted transaction is discarded. */
    method Close()
      requires Valid() && open && !cursorOpen
      modifies this, db
      ensures Valid() && !open && pending == db.table
      ensures db.table == old(db.table) && db.openCursors == old(db.openCursors)
      ensures db.openConnections == old(db.openConnections) - 1 && db.connects == old(db.connects)
    {
      open, pending, aborted := false, db.table, false;
      db.openConnections := db.openConnections - 1;
    }
  }

  /** The exit taken once there are records to load: the `try` block of the source. */
  function DatabaseOutcome(logs: seq<Json>, env: Environment): (o: Outcome)
    ensures o.Connected() <==> !env.connectFails
    ensures o.Loaded? <==> !env.connectFails && !env.createFails && !env.insertFails &&
                           ExtractValues(logs).Ok? && !DuplicateInPage(ExtractValues(logs).value)
    ensures o.Loaded? ==> o.count == |logs|
    ensures o == MissingField ==> exists i :: 0 <= i < |logs| && logs[i].Object? && !HasRequiredFields(logs[i].fields)
    ensures o == ConnectFailed <==> env.connectFails
    ensures o == SetupFailed <==> !env.connectFails && env.createFails
    ensures o == MissingField <==> !env.connectFails && !env.createFails && ExtractValues(logs) == Err(KeyMissing)
    ensures o == MalformedRecord <==>
              !env.connectFails && !env.createFails && ExtractValues(logs) == Err(NotSubscriptable)
    ensures o == InsertFailed <==>
              !env.connectFails && !env.createFails && ExtractValues(logs).Ok? &&
              (env.insertFails || DuplicateInPage(ExtractValues(logs).value))
  {
    if env.connectFails then ConnectFailed
    else if env.createFails then SetupFailed
    else match ExtractValues(logs)
      case Err(KeyMissing) => MissingField
      case Err(NotSubscriptable) => MalformedRecord
      case Ok(values) =>
        if DuplicateInPage(values) || env.insertFails then InsertFailed else Loaded(|values|)
  }

  /** The exit `load_logs_to_postgres` takes for a file system and a server behaviour. */
  function LoadOutcome(fs: FileSystem, outputDir: string, executionDate: string, env: Environment): (o: Outcome)
    ensures var path := ProcessedLogPath(outputDir, executionDate);
            (o == FileMissing <==> path !in fs) &&
            (o == ReadFailed <==> path in fs && exists i :: 0 <= i < |fs[path]| && fs[path][i].Malformed?) &&
            (o == NoLogs <==> path in fs && forall i :: 0 <= i < |fs[path]| ==> fs[path][i].Blank?)
    ensures var path := ProcessedLogPath(outputDir, executionDate);
            o.Connected() ==> path in fs && ParseNonBlank(fs[path]).Some? && ParseNonBlank(fs[path]).value != []
    ensures o.Loaded? ==>
              var logs := ParseNonBlank(fs[ProcessedLogPath(outputDir, executionDate)]).value;
              o.count == |logs| > 0 && forall i :: 0 <= i < |logs| ==> !Unloadable(logs[i])
    ensures var path := ProcessedLogPath(outputDir, executionDate);
            path in fs && ParseNonBlank(fs[path]).Some? && ParseNonBlank(fs[path]).value != [] ==>
              o == DatabaseOutcome(ParseNonBlank(fs[path]).value, env)
  {
    var path := ProcessedLogPath(outputDir, executionDate);
    if path !in fs then FileMissing
    else match ParseNonBlank(fs[path])
      case None => ReadFailed
      case Some(logs) => if logs == [] then NoLogs else DatabaseOutcome(logs, env)
  }

  /** The tuples the loader sends for the processed file, or [] when it sends none. */
  function Batch(fs: FileSystem, outputDir: string, executionDate: string): (values: seq<Values>)
    ensures values != [] ==>
              var path := ProcessedLogPath(outputDir, executionDate);
              path in fs && ParseNonBlank(fs[path]).Some? &&
              ExtractValues(ParseNonBlank(fs[path]).value) == Ok(values)
    ensures var path := ProcessedLogPath(outputDir, executionDate);
            path in fs && ParseNonBlank(fs[path]).Some? && ExtractValues(ParseNonBlank(fs[path]).value).Ok? ==>
              values == ExtractValues(ParseNonBlank(fs[path]).value).value
  {
    var path := ProcessedLogPath(outputDir, executionDate);
    if path !in fs then []
    else match ParseNonBlank(fs[path])
      case None => []
      case Some(logs) =>
        match ExtractValues(logs)
        case Err(_) => []
        case Ok(values) => values
  }

  /**
   * The committed table after the call. Unless it commits, the table is as
   * before. After a commit, each complete key is present iff it was before or
   * the batch has it, the last tuple with that key gives its level and
   * message, created_at is kept for a key that was present and is the
   * transaction's NOW() for a new one, and every tuple with a NULL key
   * column is appended as a row of its own.
   */
  function LoadedTable(fs: FileSystem, outputDir: string, executionDate: string, env: Environment, t: Table): (r: Table)
    requires t.Valid()
    ensures r.Valid()
    ensures !LoadOutcome(fs, outputDir, executionDate, env).Loaded? ==> r == t
    ensures LoadOutcome(fs, outputDir, executionDate, env).Loaded? ==>
              |Batch(fs, outputDir, executionDate)| == LoadOutcome(fs, outputDir, executionDate, env).count
    ensures LoadOutcome(fs, outputDir, executionDate, env).Loaded? ==>
              r.unkeyed == t.unkeyed + UnkeyedRows(Batch(fs, outputDir, executionDate), env.now)
    ensures LoadOutcome(fs, outputDir, executionDate, env).Loaded? ==>
              forall k: Key | k.Complete() ::
                && (k in r.keyed <==> k in t.keyed || LastFor(Batch(fs, outputDir, executionDate), k).Some?)
                && (k in r.keyed ==>
                      r.keyed[k] == match LastFor(Batch(fs, outputDir, executionDate), k)
                                    case None => t.keyed[k]
                                    case Some(v) =>
                                      Row(v.level, v.message, if k in t.keyed then t.keyed[k].createdAt else env.now))
  {
    if LoadOutcome(fs, outputDir, executionDate, env).Loaded? then
      UpsertAllUnkeyed(t, Batch(fs, outputDir, executionDate), env.now);
      UpsertAllEverywhere(t, Batch(fs, outputDir, executionDate), env.now);
      UpsertAll(t, Batch(fs, outputDir, executionDate), env.now)
    else t
  }

  /**
   * The database part of `load_logs_to_postgres`: connect, create the table,
   * build `values`, upsert, then commit or roll back; the cursor and the
   * connection opened are closed on every exit.
   */
  method WriteLogs(db: Database, logs: seq<Json>, env: Environment) returns (outcome: Outcome)
    requires db.table.Valid()
    modifies db
    ensures db.table.Valid()
    ensures outcome == DatabaseOutcome(logs, env)
    ensures db.table == if outcome.Loaded? then UpsertAll(old(db.table), ExtractValues(logs).value, env.now)
                        else old(db.table)
    ensures db.connects == old(db.connects) + (if outcome.Connected() then 1 else 0)
    ensures db.openConnections == old(db.openConnections) && db.openCursors == old(db.openCursors)
  {
    if env.connectFails {
      return ConnectFailed;
    }
    var conn := new Connection.Connect(db);
    conn.OpenCursor();
    var created := conn.CreateTable(env.createFails);
    if !created {
      conn.Rollback();
      outcome := SetupFailed;
    } else {
      var values := ExtractValues(logs);
      if values.Err? && values.error == KeyMissing {
        // the `return` inside the try: no rollback, the transaction dies with the connection
        outcome := MissingField;
      } else if values.Err? {
        conn.Rollback();
        outcome := MalformedRecord;
      } else {
        var ok := conn.ExecuteValues(values.value, env.insertFails, env.now);
        if ok {
          conn.Commit();
          outcome := Loaded(|values.value|);
        } else {
          conn.Rollback();
          outcome := InsertFailed;
        }
      }
    }
    conn.CloseCursor();
    conn.Close();
  }

  /** `load_logs_to_postgres`: the early exits before any connection, then `WriteLogs`. */
  method LoadLogsToPostgres(db: Database, fs: FileSystem, outputDir: string, executionDate: string, env: Environment)
    returns (outcome: Outcome)
    requires db.table.Valid()
    modifies db
    ensures db.table.Valid()
    ensures outcome == LoadOutcome(fs, outputDir, executionDate, env)
    ensures db.table == LoadedTable(fs, outputDir, executionDate, env, old(db.table))
    ensures db.connects == old(db.connects) + (if outcome.Connected() then 1 else 0)
    ensures db.openConnections == old(db.openConnections) && db.openCursors == old(db.openCursors)
  {
    var filePath := ProcessedLogPath(outputDir, executionDate);
    if filePath !in fs {
      return FileMissing;
    }
    var parsed := ParseNonBlank(fs[filePath]);
    if parsed.None? {
      return ReadFailed;
    }
    var logs := parsed.value;
    if logs == [] {
      return NoLogs;
    }
    outcome := WriteLogs(db, logs, env);
  }

  /**
   * Once a processed file has been loaded, loading it again leaves the table
   * as the first load left it, whether the second call commits or fails,
   * provided no record has a NULL key column.
   */
  lemma ReloadIsIdempotent(fs: FileSystem, outputDir: string, executionDate: string,
                           first: Environment, second: Environment, t: Table)
    requires t.Valid()
    requires LoadOutcome(fs, outputDir, executionDate, first).Loaded?
    requires forall v :: v in Batch(fs, outputDir, executionDate) ==> v.ConflictKey().Complete()
    ensures var once := LoadedTable(fs, outputDir, executionDate, first, t);
            LoadedTable(fs, outputDir, executionDate, second, once) == once
  {
    var values := Batch(fs, outputDir, executionDate);
    if LoadOutcome(fs, outputDir, executionDate, second).Loaded? {
      UpsertIdempotent(t, values, first.now, second.now);
    }
  }

  /**
   * The loader does not filter: it commits only when `filter_valid_logs`
   * would keep every record, and a single record lacking a field stops the
   * whole load with the table unchanged.
   */
  lemma LoadIsAllOrNothing(fs: FileSystem, outputDir: string, executionDate: string,
                           env: Environment, t: Table, logs: seq<Json>)
    requires t.Valid()
    requires var path := ProcessedLogPath(outputDir, executionDate);
             path in fs && ParseNonBlank(fs[path]) == Some(logs)
    requires forall i :: 0 <= i < |logs| ==> logs[i].Object?
    ensures var records := seq(|logs|, i requires 0 <= i < |logs| => logs[i].fields);
            InvalidOf(records) != [] ==>
              !LoadOutcome(fs, outputDir, executionDate, env).Loaded? &&
              LoadedTable(fs, outputDir, executionDate, env, t) == t
    ensures var records := seq(|logs|, i requires 0 <= i < |logs| => logs[i].fields);
            LoadOutcome(fs, outputDir, executionDate, env).Loaded? ==>
              InvalidOf(records) == [] && ValidOf(records) == records
  {
    var records := seq(|logs|, i requires 0 <= i < |logs| => logs[i].fields);
    NothingInvalid(records);
  }
}
