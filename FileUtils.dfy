/**
 * Path builders of `common/file_utils.py`: where the raw and the processed
 * file of one partition (an execution date) live.
 */
module FileUtils {

  /** A path that `os.path.join` treats as absolute: it begins with '/'. */
  predicate IsAbsolute(p: string) {
    |p| > 0 && p[0] == '/'
  }

  /** True when `os.path.join` appends the next component without adding '/'. */
  predicate NeedsNoSeparator(dir: string) {
    dir == "" || dir[|dir| - 1] == '/'
  }

  /**
   * POSIX `os.path.join(dir, name)` for two components: an absolute `name`
   * replaces `dir`; otherwise `name` is appended, with one '/' in between
   * unless `dir` is empty or already ends in '/'.
   */
  function Join(dir: string, name: string): (path: string)
    ensures |name| <= |path| && path[|path| - |name|..] == name
    ensures IsAbsolute(name) ==> path == name
    ensures !IsAbsolute(name) ==> |dir| <= |path| && path[..|dir|] == dir
    ensures !IsAbsolute(name) && NeedsNoSeparator(dir) ==> |path| == |dir| + |name|
    ensures !IsAbsolute(name) && !NeedsNoSeparator(dir) ==>
              |path| == |dir| + 1 + |name| && path[|dir|] == '/'
  {
    if IsAbsolute(name) then name
    else if NeedsNoSeparator(dir) then dir + name
    else dir + "/" + name
  }

  /** File name of the raw events of one execution date. */
  function RawLogName(executionDate: string): string {
    "log_" + executionDate + ".jsonl"
  }

  /** File name of the normalized records of one execution date. */
  function ProcessedLogName(executionDate: string): string {
    "processed_" + executionDate + ".jsonl"
  }

  /** `get_raw_log_path`: the raw file of `executionDate` under `outputDir`. */
  function RawLogPath(outputDir: string, executionDate: string): (path: string)
    ensures |outputDir| <= |path| && path[..|outputDir|] == outputDir
    ensures var name := "log_" + executionDate + ".jsonl";
            |name| <= |path| && path[|path| - |name|..] == name
  {
    Join(outputDir, RawLogName(executionDate))
  }

  /** `get_processed_log_path`: the processed file of `executionDate` under `outputDir`. */
  function ProcessedLogPath(outputDir: string, executionDate: string): (path: string)
    ensures |outputDir| <= |path| && path[..|outputDir|] == outputDir
    ensures var name := "processed_" + executionDate + ".jsonl";
            |name| <= |path| && path[|path| - |name|..] == name
  {
    Join(outputDir, ProcessedLogName(executionDate))
  }

  /** Under one directory, joining two relative names gives equal paths only for equal names. */
  lemma JoinInjective(dir: string, name1: string, name2: string)
    requires !IsAbsolute(name1) && !IsAbsolute(name2)
    requires Join(dir, name1) == Join(dir, name2)
    ensures name1 == name2
  {
    var prefix := if NeedsNoSeparator(dir) then dir else dir + "/";
    assert Join(dir, name1) == prefix + name1;
    assert Join(dir, name2) == prefix + name2;
    assert name1 == (prefix + name1)[|prefix|..];
    assert name2 == (prefix + name2)[|prefix|..];
  }

  /** The raw file and the processed file never coincide, whatever the two dates. */
  lemma RawAndProcessedPathsDiffer(dir: string, date1: string, date2: string)
    ensures RawLogPath(dir, date1) != ProcessedLogPath(dir, date2)
  {
    var raw, processed := RawLogName(date1), ProcessedLogName(date2);
    assert raw[0] == 'l' && processed[0] == 'p';
    if RawLogPath(dir, date1) == ProcessedLogPath(dir, date2) {
      JoinInjective(dir, raw, processed);
    }
  }

  /** Under a fixed directory, different dates give different raw paths. */
  lemma RawLogPathInjective(dir: string, date1: string, date2: string)
    requires RawLogPath(dir, date1) == RawLogPath(dir, date2)
    ensures date1 == date2
  {
    var name1, name2 := RawLogName(date1), RawLogName(date2);
    JoinInjective(dir, name1, name2);
    assert date1 == name1[4..|name1| - 6];
    assert date2 == name2[4..|name2| - 6];
  }

  /** Under a fixed directory, different dates give different processed paths. */
  lemma ProcessedLogPathInjective(dir: string, date1: string, date2: string)
    requires ProcessedLogPath(dir, date1) == ProcessedLogPath(dir, date2)
    ensures date1 == date2
  {
    var name1, name2 := ProcessedLogName(date1), ProcessedLogName(date2);
    JoinInjective(dir, name1, name2);
    assert date1 == name1[10..|name1| - 6];
    assert date2 == name2[10..|name2| - 6];
  }
}
