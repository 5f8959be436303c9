/**
 * Abstract newline-delimited JSON files, as the transformer and the loader
 * see them once `open` and `json.loads` have done their work.
 *
 * The text of a line is not modelled; only what parsing it yields.
 */
module JsonLines {
  import opened Wrappers

  /** A JSON object whose values are strings or `null` (a Python dict). */
  type Record = map<string, Option<string>>

  /** What `json.loads` returns for a line: an object, or any other JSON value. */
  datatype Json = Object(fields: Record) | NonObject

  /** One line of a file: whitespace only, text that is not JSON, or a JSON value. */
  datatype Line = Blank | Malformed | Value(json: Json)

  /** The files present on disk, by path; a path that is not a key does not exist. */
  type FileSystem = map<string, seq<Line>>

  /** `dict.get(key)`: `None` both when the key is absent and when its value is `null`. */
  function Get(r: Record, key: string): (v: Option<string>)
    ensures v.Some? <==> key in r && r[key].Some?
    ensures v.Some? ==> r[key] == v
  {
    if key in r then r[key] else None
  }
}
