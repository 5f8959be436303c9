/**
 * `common/validation_utils.py`: splitting normalized records into those that
 * carry every required field and those that do not.
 */
module ValidationUtils {
  import opened Wrappers
  import opened JsonLines

  /** `REQUIRED_LOG_FIELDS`: the five keys of a normalized log record. */
  const RequiredLogFields: seq<string> := ["timestamp", "level", "message", "user_id", "session_id"]

  /** `all(key in log for key in REQUIRED_LOG_FIELDS)`: presence only, a `null` value counts. */
  function HasRequiredFields(log: Record): (ok: bool)
    ensures ok <==> {"timestamp", "level", "message", "user_id", "session_id"} <= log.Keys
  {
    forall key :: key in RequiredLogFields ==> key in log
  }

  /** The records of `logs` that have every required field, in their original order. */
  function ValidOf(logs: seq<Record>): seq<Record> {
    if logs == [] then []
    else
      var last := logs[|logs| - 1];
      ValidOf(logs[..|logs| - 1]) + (if HasRequiredFields(last) then [last] else [])
  }

  /** The records of `logs` that lack some required field, in their original order. */
  function InvalidOf(logs: seq<Record>): seq<Record> {
    if logs == [] then []
    else
      var last := logs[|logs| - 1];
      InvalidOf(logs[..|logs| - 1]) + (if HasRequiredFields(last) then [] else [last])
  }

  /** `a` is `b` with some elements removed and the rest left in order. */
  predicate IsSubsequence<T(==)>(a: seq<T>, b: seq<T>)
    decreases |b|
  {
    if a == [] then true
    else if b == [] then false
    else
      (a[|a| - 1] == b[|b| - 1] && IsSubsequence(a[..|a| - 1], b[..|b| - 1]))
      || IsSubsequence(a, b[..|b| - 1])
  }

  /**
   * `filter_valid_logs`: one pass that appends each record to `valid` or to
   * `invalid`. The input is a value and is left as it was.
   */
  method FilterValidLogs(logs: seq<Record>) returns (valid: seq<Record>, invalid: seq<Record>)
    ensures valid == ValidOf(logs) && invalid == InvalidOf(logs)
    ensures forall log :: log in valid ==> HasRequiredFields(log)
    ensures forall log :: log in invalid ==> !HasRequiredFields(log)
    ensures |valid| + |invalid| == |logs|
    ensures multiset(valid) + multiset(invalid) == multiset(logs)
    ensures IsSubsequence(valid, logs) && IsSubsequence(invalid, logs)
  {
    valid, invalid := [], [];
    var i := 0;
    while i < |logs|
      invariant 0 <= i <= |logs|
      invariant valid == ValidOf(logs[..i]) && invalid == InvalidOf(logs[..i])
    {
      var log := logs[i];
      assert logs[..i + 1][..i] == logs[..i];
      if HasRequiredFields(log) {
        valid := valid + [log];
      } else {
        invalid := invalid + [log];
      }
      i := i + 1;
    }
    assert logs[..|logs|] == logs;
    ValidOfSound(logs);
    InvalidOfSound(logs);
    PartitionIsPermutation(logs);
    PartitionKeepsOrder(logs);
  }

  /** Every kept record has all fields and every set-aside record lacks one. */
  lemma {:induction false} ValidOfSound(logs: seq<Record>)
    ensures forall log :: log in ValidOf(logs) ==> HasRequiredFields(log)
  {
    if logs != [] {
      ValidOfSound(logs[..|logs| - 1]);
    }
  }

  lemma {:induction false} InvalidOfSound(logs: seq<Record>)
    ensures forall log :: log in InvalidOf(logs) ==> !HasRequiredFields(log)
  {
    if logs != [] {
      InvalidOfSound(logs[..|logs| - 1]);
    }
  }

  /** Every record lands in exactly one of the two lists. */
  lemma {:induction false} PartitionIsPermutation(logs: seq<Record>)
    ensures multiset(ValidOf(logs)) + multiset(InvalidOf(logs)) == multiset(logs)
    ensures |ValidOf(logs)| + |InvalidOf(logs)| == |logs|
  {
    if logs != [] {
      var init, last := logs[..|logs| - 1], logs[|logs| - 1];
      PartitionIsPermutation(init);
      assert logs == init + [last];
    }
  }

  /** Both lists keep the relative order of the input. */
  lemma {:induction false} PartitionKeepsOrder(logs: seq<Record>)
    ensures IsSubsequence(ValidOf(logs), logs) && IsSubsequence(InvalidOf(logs), logs)
  {
    if logs != [] {
      var init := logs[..|logs| - 1];
      PartitionKeepsOrder(init);
      var v, w := ValidOf(logs), InvalidOf(logs);
      if HasRequiredFields(logs[|logs| - 1]) {
        assert v[..|v| - 1] == ValidOf(init);
        if w != [] {
          assert w == InvalidOf(init);
        }
      } else {
        assert w[..|w| - 1] == InvalidOf(init);
        if v != [] {
          assert v == ValidOf(init);
        }
      }
    }
  }

  /** Nothing is set aside exactly when every record has all fields, and then all are kept. */
  lemma {:induction false} NothingInvalid(logs: seq<Record>)
    ensures InvalidOf(logs) == [] <==> forall i :: 0 <= i < |logs| ==> HasRequiredFields(logs[i])
    ensures InvalidOf(logs) == [] ==> ValidOf(logs) == logs
  {
    if logs != [] {
      var init := logs[..|logs| - 1];
      NothingInvalid(init);
      assert logs == init + [logs[|logs| - 1]];
      if !HasRequiredFields(logs[|logs| - 1]) {
        assert InvalidOf(logs) != [];
      }
      if InvalidOf(logs) == [] {
        assert InvalidOf(init) == [];
        assert forall i :: 0 <= i < |init| ==> init[i] == logs[i];
      }
    }
  }

  /**
   * The classification looks only at which required keys are present:
   * values (`null` or not) and extra keys make no difference.
   */
  lemma ClassifiedByRequiredKeys(log1: Record, log2: Record)
    requires forall key :: key in RequiredLogFields ==> (key in log1 <==> key in log2)
    ensures HasRequiredFields(log1) == HasRequiredFields(log2)
  {
  }
}
