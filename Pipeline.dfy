/**
 * The transformer and the loader run one after the other on one partition:
 * what the first writes, the second reads.
 */
module Pipeline {
  import opened Wrappers
  import opened JsonLines
  import opened FileUtils
  import opened ValidationUtils
  import opened SessionTransformer
  import opened LoadToPostgres

  /** The tuple the loader builds from a record the transformer wrote. */
  function StoredValues(t: LogRecord): (v: Values)
    ensures v.ConflictKey() == Key(t.timestamp, t.userId, t.sessionId)
    ensures v.level == Some(t.level) && v.message == Some(t.message)
  {
    Values(t.timestamp, Some(t.level), Some(t.message), t.userId, t.sessionId)
  }

  /** Every record the transformer writes passes `filter_valid_logs`. */
  lemma NormalizedRecordIsValid(t: LogRecord)
    ensures HasRequiredFields(ToRecord(t))
  {
  }

  /** The tuples the loader builds from a file of normalized records. */
  function StoredBatch(records: seq<LogRecord>): (values: seq<Values>)
    ensures |values| == |records|
    ensures forall i :: 0 <= i < |records| ==> values[i] == StoredValues(records[i])
  {
    seq(|records|, i requires 0 <= i < |records| => StoredValues(records[i]))
  }

  /** A serialized file parses, with no blank lines, and every record yields its tuple. */
  lemma SerializedFileExtracts(records: seq<LogRecord>)
    ensures ParseNonBlank(Serialize(records)).Some?
    ensures ExtractValues(ParseNonBlank(Serialize(records)).value) == Ok(StoredBatch(records))
  {
    var lines := Serialize(records);
    var logs := ParseNonBlank(lines).value;
    assert forall i :: 0 <= i < |logs| ==> logs[i] == Object(ToRecord(records[i]));
    var extracted := ExtractValues(logs);
    assert extracted.Ok?;
    assert extracted.value == StoredBatch(records);
  }

  /**
   * Loading a processed file of normalized records: nothing to load when it
   * is empty; otherwise every record is committed or the database step fails,
   * and the load never stops on a missing field or a malformed record.
   */
  lemma LoadSerialized(fs: FileSystem, processedDir: string, executionDate: string,
                       records: seq<LogRecord>, env: Environment)
    requires ProcessedLogPath(processedDir, executionDate) in fs
    requires fs[ProcessedLogPath(processedDir, executionDate)] == Serialize(records)
    ensures var o := LoadOutcome(fs, processedDir, executionDate, env);
            && (records == [] ==> o == NoLogs)
            && (records != [] ==> o in {Loaded(|records|), ConnectFailed, SetupFailed, InsertFailed})
            && ((records != [] && !env.connectFails && !env.createFails && !env.insertFails &&
                 !DuplicateInPage(StoredBatch(records))) ==> o == Loaded(|records|))
            && (o.Loaded? ==> Batch(fs, processedDir, executionDate) == StoredBatch(records))
  {
    SerializedFileExtracts(records);
    var logs := ParseNonBlank(Serialize(records)).value;
    assert |logs| == |records|;
  }

  /**
   * The transformer followed by the loader on one partition: an empty raw
   * file gives nothing to load; otherwise one tuple per raw event, carrying
   * the level and message the transformer derived, is sent and committed, or
   * the load fails inside the database.
   */
  lemma TransformThenLoad(fs: FileSystem, rawDir: string, processedDir: string, executionDate: string,
                          env: Environment)
    requires TransformResult(fs, rawDir, processedDir, executionDate).Ok?
    ensures var written := TransformResult(fs, rawDir, processedDir, executionDate).value;
            var events := ReadRawEvents(fs[RawLogPath(rawDir, executionDate)]).value;
            var o := LoadOutcome(written, processedDir, executionDate, env);
            && (events == [] ==> o == NoLogs)
            && (events != [] ==> o in {Loaded(|events|), ConnectFailed, SetupFailed, InsertFailed})
            && ((events != [] && !env.connectFails && !env.createFails && !env.insertFails &&
                 !DuplicateInPage(StoredBatch(NormalizeAll(events)))) ==> o == Loaded(|events|))
            && (o.Loaded? ==> Batch(written, processedDir, executionDate) == StoredBatch(NormalizeAll(events)))
  {
    var written := TransformResult(fs, rawDir, processedDir, executionDate).value;
    var events := ReadRawEvents(fs[RawLogPath(rawDir, executionDate)]).value;
    LoadSerialized(written, processedDir, executionDate, NormalizeAll(events), env);
  }
}
