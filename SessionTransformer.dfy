/**
 * `etl/transform/session_transformer.py`: turning raw events into normalized
 * log records, and the raw file of a partition into its processed file.
 */
module SessionTransformer {
  import opened Wrappers
  import opened JsonLines
  import opened FileUtils

  /** A raw event as the transformer reads it: each field may be absent or `null`. */
  datatype RawEvent = RawEvent(
    timestamp: Option<string>,
    userId: Option<string>,
    event: Option<string>,
    sessionId: Option<string>)

  /** A normalized log record: level and message are always derived, the rest copied. */
  datatype LogRecord = LogRecord(
    timestamp: Option<string>,
    level: string,
    message: string,
    userId: Option<string>,
    sessionId: Option<string>)

  /** Why `transform_logs` raises. */
  datatype TransformError =
    | InputNotFound     // open() of the raw file: FileNotFoundError
    | DecodeError       // json.loads of some line: JSONDecodeError
    | NotAnObject       // log.get on a parsed value that is not a dict: AttributeError
    | OutputDirMissing  // os.makedirs("") when the output path has no directory part

  /** The four `log.get(...)` lookups of a parsed raw line. */
  function RawEventOf(log: Record): (e: RawEvent)
    ensures e.timestamp == Get(log, "timestamp") && e.userId == Get(log, "user_id")
    ensures e.event == Get(log, "event") && e.sessionId == Get(log, "session_id")
  {
    RawEvent(Get(log, "timestamp"), Get(log, "user_id"), Get(log, "event"), Get(log, "session_id"))
  }

  /** `map_event_to_level`: the severity of an event; total, with "info" as fallback. */
  function MapEventToLevel(event: Option<string>): (level: string)
    ensures level == "info" || level == "critical" || level == "debug"
    ensures level == "critical" <==> event == Some("purchase")
    ensures level == "debug" <==> event == Some("view")
    ensures event == Some("login") || event == Some("logout") ==> level == "info"
  {
    if event == Some("logout") || event == Some("login") then "info"
    else if event == Some("purchase") then "critical"
    else if event == Some("view") then "debug"
    else "info"
  }

  /**
   * How an f-string renders a string value or `None`: the string itself, or
   * "None", which a string "None" also prints as.
   */
  function Show(v: Option<string>): (s: string)
    ensures v.Some? ==> s == v.value
    ensures s == "None" <==> v == None || v == Some("None")
  {
    match v
    case None => "None"
    case Some(s) => s
  }

  /** The part of a message after "User <user> ", chosen by the event. */
  function Action(event: Option<string>): string {
    if event == Some("login") then "logged in"
    else if event == Some("logout") then "logged out"
    else if event == Some("purchase") then "made a purchase"
    else if event == Some("view") then "viewed a page"
    else "performed " + Show(event)
  }

  /** `generate_message`: a sentence about the user, chosen by the event. */
  function GenerateMessage(log: RawEvent): (message: string)
    ensures var prefix := "User " + Show(log.userId) + " ";
            |prefix| < |message| && message[..|prefix|] == prefix
    ensures var user := "User " + Show(log.userId);
            && (log.event == Some("login") ==> message == user + " logged in")
            && (log.event == Some("logout") ==> message == user + " logged out")
            && (log.event == Some("purchase") ==> message == user + " made a purchase")
            && (log.event == Some("view") ==> message == user + " viewed a page")
            && (log.event !in {Some("login"), Some("logout"), Some("purchase"), Some("view")} ==>
                  message == user + " performed " + Show(log.event))
  {
    "User " + Show(log.userId) + " " + Action(log.event)
  }

  /**
   * For one user, two events give the same message exactly when they print
   * the same: the event can be read back from the message, except that a
   * missing event and the literal event "None" both read "performed None".
   */
  lemma {:induction false} MessageDeterminesEvent(log1: RawEvent, log2: RawEvent)
    requires log1.userId == log2.userId
    ensures GenerateMessage(log1) == GenerateMessage(log2) <==> Show(log1.event) == Show(log2.event)
  {
    var prefix := "User " + Show(log1.userId) + " ";
    var a1, a2 := Action(log1.event), Action(log2.event);
    if GenerateMessage(log1) == GenerateMessage(log2) {
      assert a1 == (prefix + a1)[|prefix|..];
      assert a2 == (prefix + a2)[|prefix|..];
      ActionDeterminesEvent(log1.event, log2.event);
    }
  }

  lemma ActionDeterminesEvent(e1: Option<string>, e2: Option<string>)
    ensures Action(e1) == Action(e2) ==> Show(e1) == Show(e2)
  {
    var known := [Some("login"), Some("logout"), Some("purchase"), Some("view")];
    if Show(e1) != Show(e2) {
      if e1 !in known && e2 !in known {
        assert Show(e1) == Action(e1)[10..];
        assert Show(e2) == Action(e2)[10..];
      } else if e1 in known && e2 in known {
        assert "logged in"[7] != "logged out"[7];
      } else {
        assert Action(e1)[0] != Action(e2)[0];
      }
    }
  }

  /** One iteration of the loop of `transform_logs`: the five-field record of a raw event. */
  function Normalize(log: RawEvent): (t: LogRecord)
    ensures t.timestamp == log.timestamp && t.userId == log.userId && t.sessionId == log.sessionId
    ensures t.level == MapEventToLevel(log.event) && t.message == GenerateMessage(log)
  {
    LogRecord(log.timestamp, MapEventToLevel(log.event), GenerateMessage(log), log.userId, log.sessionId)
  }

  /** The dict written by `json.dumps`: all five keys, `null` where the raw field was missing. */
  function ToRecord(t: LogRecord): (r: Record)
    ensures r.Keys == {"timestamp", "level", "message", "user_id", "session_id"}
    ensures r["timestamp"] == t.timestamp && r["user_id"] == t.userId && r["session_id"] == t.sessionId
    ensures r["level"] == Some(t.level) && r["message"] == Some(t.message)
  {
    map["timestamp" := t.timestamp, "level" := Some(t.level), "message" := Some(t.message),
        "user_id" := t.userId, "session_id" := t.sessionId]
  }

  /** The processed file: one JSON object per record, in order, no blank lines. */
  function Serialize(records: seq<LogRecord>): (lines: seq<Line>)
    ensures |lines| == |records|
    ensures forall i :: 0 <= i < |records| ==> lines[i] == Value(Object(ToRecord(records[i])))
  {
    seq(|records|, i requires 0 <= i < |records| => Value(Object(ToRecord(records[i]))))
  }

  /** `[json.loads(line) for line in infile]`: every line must parse, blank ones included. */
  function ParseAll(lines: seq<Line>): (r: Option<seq<Json>>)
    ensures r.Some? <==> forall i :: 0 <= i < |lines| ==> lines[i].Value?
    ensures r.Some? ==> |r.value| == |lines| &&
                        forall i :: 0 <= i < |lines| ==> lines[i] == Value(r.value[i])
  {
    if lines == [] then Some([])
    else match lines[0]
      case Value(v) =>
        (match ParseAll(lines[1..])
         case None => None
         case Some(rest) => Some([v] + rest))
      case _ => None
  }

  /** The raw events of a raw file, or why reading them raises. */
  function ReadRawEvents(lines: seq<Line>): (r: Result<seq<RawEvent>, TransformError>)
    ensures r.Err? ==> r.error == DecodeError || r.error == NotAnObject
    ensures r.Ok? <==> forall i :: 0 <= i < |lines| ==> lines[i].Value? && lines[i].json.Object?
    ensures r.Ok? ==> |r.value| == |lines| &&
                      forall i :: 0 <= i < |lines| ==> r.value[i] == RawEventOf(lines[i].json.fields)
    ensures r == Err(DecodeError) <==> exists i :: 0 <= i < |lines| && !lines[i].Value?
  {
    match ParseAll(lines)
    case None => Err(DecodeError)
    case Some(logs) =>
      if exists i :: 0 <= i < |logs| && logs[i].NonObject? then Err(NotAnObject)
      else Ok(seq(|logs|, i requires 0 <= i < |logs| => RawEventOf(logs[i].fields)))
  }

  /** Every raw event normalized, in order. */
  function NormalizeAll(events: seq<RawEvent>): (records: seq<LogRecord>)
    ensures |records| == |events|
    ensures forall i :: 0 <= i < |events| ==> records[i] == Normalize(events[i])
  {
    seq(|events|, i requires 0 <= i < |events| => Normalize(events[i]))
  }

  /**
   * The effect of `transform_logs` on the file system: the processed file of
   * the partition is (over)written with the normalized raw events, or the
   * call raises and nothing is written.
   */
  function TransformResult(fs: FileSystem, inputDir: string, outputDir: string, executionDate: string)
    : (r: Result<FileSystem, TransformError>)
    ensures r == Err(InputNotFound) <==> RawLogPath(inputDir, executionDate) !in fs
    ensures var raw := RawLogPath(inputDir, executionDate);
            raw in fs && ReadRawEvents(fs[raw]).Err? ==> r == Err(ReadRawEvents(fs[raw]).error)
    ensures var raw := RawLogPath(inputDir, executionDate);
            r.Ok? <==> raw in fs && ReadRawEvents(fs[raw]).Ok? && '/' in ProcessedLogPath(outputDir, executionDate)
    ensures var raw := RawLogPath(inputDir, executionDate);
            raw in fs && ReadRawEvents(fs[raw]).Ok? && '/' !in ProcessedLogPath(outputDir, executionDate) ==>
              r == Err(OutputDirMissing)
    ensures r.Ok? ==> RawLogPath(inputDir, executionDate) in fs &&
                      ReadRawEvents(fs[RawLogPath(inputDir, executionDate)]).Ok? &&
                      r.value == fs[ProcessedLogPath(outputDir, executionDate) :=
                                    Serialize(NormalizeAll(ReadRawEvents(fs[RawLogPath(inputDir, executionDate)]).value))]
  {
    var inputFile := RawLogPath(inputDir, executionDate);
    var outputFile := ProcessedLogPath(outputDir, executionDate);
    if inputFile !in fs then Err(InputNotFound)
    else match ReadRawEvents(fs[inputFile])
      case Err(e) => Err(e)
      case Ok(events) =>
        if '/' !in outputFile then Err(OutputDirMissing)
        else Ok(fs[outputFile := Serialize(NormalizeAll(events))])
  }

  /**
   * The loop of `transform_logs`: one normalized record appended per parsed
   * line, in order; `log.get` on a value that is not an object raises.
   */
  method TransformRecords(rawLogs: seq<Json>) returns (r: Result<seq<LogRecord>, TransformError>)
    ensures r.Err? <==> exists i :: 0 <= i < |rawLogs| && rawLogs[i].NonObject?
    ensures r.Err? ==> r.error == NotAnObject
    ensures r.Ok? ==> |r.value| == |rawLogs| &&
                      forall i :: 0 <= i < |rawLogs| ==> r.value[i] == Normalize(RawEventOf(rawLogs[i].fields))
  {
    var transformed: seq<LogRecord> := [];
    var i := 0;
    while i < |rawLogs|
      invariant 0 <= i <= |rawLogs|
      invariant forall j :: 0 <= j < i ==> rawLogs[j].Object?
      invariant |transformed| == i
      invariant forall j :: 0 <= j < i ==> transformed[j] == Normalize(RawEventOf(rawLogs[j].fields))
    {
      if rawLogs[i].NonObject? {
        return Err(NotAnObject);
      }
      var record := Normalize(RawEventOf(rawLogs[i].fields));
      transformed := transformed + [record];
      i := i + 1;
    }
    r := Ok(transformed);
  }

  /**
   * `transform_logs`: read the raw file of the partition, normalize every
   * event, and (over)write the processed file.
   */
  method TransformLogs(fs: FileSystem, inputDir: string, outputDir: string, executionDate: string)
    returns (r: Result<FileSystem, TransformError>)
    ensures r == TransformResult(fs, inputDir, outputDir, executionDate)
  {
    var inputFile := RawLogPath(inputDir, executionDate);
    var outputFile := ProcessedLogPath(outputDir, executionDate);
    if inputFile !in fs {
      return Err(InputNotFound);
    }
    var parsed := ParseAll(fs[inputFile]);
    if parsed.None? {
      return Err(DecodeError);
    }
    var transformed := TransformRecords(parsed.value);
    if transformed.Err? {
      ghost var i :| 0 <= i < |parsed.value| && parsed.value[i].NonObject?;
      assert fs[inputFile][i] == Value(parsed.value[i]);
      return Err(transformed.error);
    }
    if '/' !in outputFile {
      return Err(OutputDirMissing);
    }
    ghost var events := ReadRawEvents(fs[inputFile]);
    assert events.Ok?;
    assert transformed.value == NormalizeAll(events.value);
    r := Ok(fs[outputFile := Serialize(transformed.value)]);
  }

  /** An empty raw file gives an existing, empty processed file. */
  lemma EmptyRawFileGivesEmptyProcessedFile(fs: FileSystem, inputDir: string, outputDir: string, executionDate: string)
    requires RawLogPath(inputDir, executionDate) in fs && fs[RawLogPath(inputDir, executionDate)] == []
    requires outputDir != ""
    ensures TransformResult(fs, inputDir, outputDir, executionDate).Ok?
    ensures var out := ProcessedLogPath(outputDir, executionDate);
            out in TransformResult(fs, inputDir, outputDir, executionDate).value &&
            TransformResult(fs, inputDir, outputDir, executionDate).value[out] == []
  {
    var out := ProcessedLogPath(outputDir, executionDate);
    assert out[|outputDir| - 1] == outputDir[|outputDir| - 1];
  }

  /** The login event of the transformer's test. */
  lemma LoginExample()
    ensures Normalize(RawEvent(Some("2025-05-23T12:00:00Z"), Some("user_1"), Some("login"), Some("session_1234")))
         == LogRecord(Some("2025-05-23T12:00:00Z"), "info", "User user_1 logged in", Some("user_1"), Some("session_1234"))
  {
  }
}
