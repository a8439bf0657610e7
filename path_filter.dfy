/**
 * File collection: which entries of the scanned tree are code files to analyse
 * (`_collect_code_files`, `_is_excluded_path`, the `supported_extensions` set).
 */
module PathFilter {
  import opened Wrappers
  import opened Text
  import opened ScanModel

  const ExcludedDirs: set<string> := {".git", "node_modules", "__pycache__", ".venv", "venv", "build", "dist"}

  const SupportedExtensions: set<string> := {".py", ".js", ".java", ".php", ".rb", ".go", ".cpp", ".c", ".cs"}

  /** Index of the last '.' in `s`, or -1: Python's `s.rfind('.')`. */
  function LastDot(s: string): (i: int)
    ensures -1 <= i < |s|
    ensures i >= 0 ==> s[i] == '.'
    ensures forall j :: i < j < |s| ==> s[j] != '.'
  {
    if s == [] then -1
    else if s[|s| - 1] == '.' then |s| - 1
    else LastDot(s[..|s| - 1])
  }

  /** `PurePath.suffix` of a file name: from its last dot, unless that dot is first or last. */
  function Suffix(name: string): string {
    var i := LastDot(name);
    if 0 < i < |name| - 1 then name[i..] else ""
  }

  /** A suffix such as ".py": a dot followed by at least one character, and no other dot. */
  predicate DotExtension(ext: string) {
    |ext| >= 2 && ext[0] == '.' && forall j :: 1 <= j < |ext| ==> ext[j] != '.'
  }

  /** A name has suffix `ext` exactly when it ends with `ext` and has something before it. */
  lemma SuffixIsExtension(name: string, ext: string)
    requires DotExtension(ext)
    ensures Suffix(name) == ext <==> |name| > |ext| && name[|name| - |ext|..] == ext
  {
    var i := LastDot(name);
    if |name| > |ext| && name[|name| - |ext|..] == ext {
      var k := |name| - |ext|;
      assert name[k] == ext[0];
      forall j | k < j < |name| ensures name[j] != '.' {
        assert name[j] == ext[j - k];
      }
      assert i == k;
    }
    if Suffix(name) == ext {
      assert name[i..] == ext;
    }
  }

  lemma SupportedAreExtensions()
    ensures forall ext :: ext in SupportedExtensions ==> DotExtension(ext)
  {
  }

  /** Some component of the path is an excluded directory name. */
  predicate Excluded(parts: seq<string>) {
    exists i :: 0 <= i < |parts| && parts[i] in ExcludedDirs
  }

  /** `_is_excluded_path`: scans the parts and stops at the first excluded name. */
  method IsExcludedPath(parts: seq<string>) returns (excluded: bool)
    ensures excluded <==> Excluded(parts)
  {
    for i := 0 to |parts|
      invariant forall j :: 0 <= j < i ==> parts[j] !in ExcludedDirs
    {
      if parts[i] in ExcludedDirs {
        return true;
      }
    }
    return false;
  }

  /** The test `_collect_code_files` applies to every entry. */
  predicate IsCodeFile(e: Entry) {
    e.isFile && Suffix(Name(e.parts)) in SupportedExtensions && !Excluded(e.parts)
  }

  /** The code files among `entries`, in traversal order. */
  function Collected(entries: seq<Entry>): (files: seq<Entry>)
    ensures |files| <= |entries|
  {
    if entries == [] then []
    else Collected(entries[..|entries| - 1]) + (if IsCodeFile(entries[|entries| - 1]) then [entries[|entries| - 1]] else [])
  }

  /** Collection keeps exactly the code files. */
  lemma {:induction false} CollectedMembers(entries: seq<Entry>, e: Entry)
    ensures e in Collected(entries) <==> e in entries && IsCodeFile(e)
  {
    if entries != [] {
      var init := entries[..|entries| - 1];
      CollectedMembers(init, e);
      assert entries == init + [entries[|entries| - 1]];
    }
  }

  /** Collection works piecewise: the files of a concatenation are the files of each part, in order. */
  lemma {:induction false} CollectedAppend(a: seq<Entry>, b: seq<Entry>)
    ensures Collected(a + b) == Collected(a) + Collected(b)
    decreases |b|
  {
    if b == [] {
      assert a + b == a;
    } else {
      var init := b[..|b| - 1];
      CollectedAppend(a, init);
      assert (a + b)[..|a + b| - 1] == a + init;
    }
  }

  /** `_collect_code_files`: one pass over the traversal, appending every code file. */
  method CollectCodeFiles(entries: seq<Entry>) returns (files: seq<Entry>)
    ensures files == Collected(entries)
    ensures forall e :: e in files <==> e in entries && IsCodeFile(e)
  {
    files := [];
    for i := 0 to |entries|
      invariant files == Collected(entries[..i])
    {
      var e := entries[i];
      var excluded := IsExcludedPath(e.parts);
      if e.isFile && Suffix(Name(e.parts)) in SupportedExtensions && !excluded {
        files := files + [e];
      }
      assert entries[..i + 1][..i] == entries[..i];
    }
    assert entries[..|entries|] == entries;
    forall e ensures e in files <==> e in entries && IsCodeFile(e) {
      CollectedMembers(entries, e);
    }
  }
}
