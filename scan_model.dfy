/**
 * The data the security scanner passes between its stages.
 *
 * A finding is a Python dict in the scanner; here it is a record whose
 * every key is optional, so that "key missing" stays distinguishable from
 * "key present", as `vuln.get(key, default)` and `key in vuln` need.
 */
module ScanModel {
  import opened Wrappers

  datatype Finding = Finding(
    kind: Option<string>,         // the 'type' key
    severity: Option<string>,
    description: Option<string>,
    message: Option<string>,
    file: Option<string>,
    line: Option<int>,
    code: Option<string>,
    codeContext: Option<string>,  // the 'code_context' key
    package: Option<string>,
    version: Option<string>)

  /** The empty dict `{}`. */
  const NoFields := Finding(None, None, None, None, None, None, None, None, None, None)

  /** The `{'type', 'file', 'message', 'severity': 'low'}` dict built for a file that could not be handled. */
  function Problem(kind: string, file: string, message: string): Finding {
    NoFields.(kind := Some(kind), file := Some(file), message := Some(message), severity := Some("low"))
  }

  /** What reading a file with `open(...).read()` gives: its text, or the text of the exception. */
  datatype ReadOutcome = Read(text: string) | ReadError(error: string)

  /** What `stat()` gives: the size in bytes and what a read would give, or the text of the exception. */
  datatype FileStat = StatError(error: string) | Stat(size: nat, contents: ReadOutcome)

  /**
   * One entry yielded by `rglob('*')` under the scan root: its `str()`,
   * its `parts` (the root's own parts included), whether it is a regular
   * file, and what the file system holds for it.
   */
  datatype Entry = Entry(path: string, parts: seq<string>, isFile: bool, stat: FileStat)

  /** The last path component, `Path.name`. */
  function Name(parts: seq<string>): string {
    if parts == [] then "" else parts[|parts| - 1]
  }

  /** `max_file_size`, from `MAX_FILE_SIZE` (default 1048576). */
  datatype Config = Config(maxFileSize: int)

  const DefaultConfig := Config(1048576)
}
