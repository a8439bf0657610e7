/**
 * The scanner's driver (`scan_local_directory`, `_analyze_file_with_progress`):
 * the code files under a directory are analysed one by one by the rule
 * engine and the language model, findings with a line number get the code
 * around that line attached, the dependency manifests are audited, and the
 * report is built, with progress reported along the way.
 *
 * The file system is an input: whether the directory exists, the entries
 * its traversal yields, and the dependency manifests at its root. The
 * regex search and the language model are parameters, and so is the clock
 * reading the report is dated with. Progress reports are collected in order
 * rather than handed to a callback.
 */
module ScanPipeline {
  import opened Wrappers
  import opened Text
  import opened ScanModel
  import opened PathFilter
  import opened RuleEngine
  import opened CodeContext
  import opened AiAnalysis
  import opened DependencyAudit
  import opened ReportBuilder

  /** One call of the progress callback: the step's name and the percentage. */
  datatype Progress = Progress(step: string, percent: int)

  /** What a scan returns: the report, or the `{'error': ...}` dict. */
  datatype ScanOutcome = ScanError(message: string) | ScanReport(report: Report)

  /** The finding with the code around its line attached, when its line is present and not zero. */
  function Attached(f: Finding, content: string): Finding {
    if f.line.Some? && f.line.value != 0
    then f.(codeContext := Some(CodeContextOf(content, f.line.value)))
    else f
  }

  function WithContext(fs: seq<Finding>, content: string): (r: seq<Finding>)
    ensures |r| == |fs|
    ensures forall i :: 0 <= i < |fs| ==> r[i] == Attached(fs[i], content)
  {
    seq(|fs|, i requires 0 <= i < |fs| => Attached(fs[i], content))
  }

  /**
   * Attaching context changes nothing but the context: it is set exactly on
   * the findings with a non-zero line, to the window of at most five lines
   * around that line.
   */
  lemma AttachedMeaning(f: Finding, content: string)
    ensures Attached(f, content).(codeContext := f.codeContext) == f
    ensures f.line.Some? && f.line.value != 0 ==>
      Attached(f, content).codeContext == Some(Join(Window(SplitOn(content, "\n"), f.line.value), "\n"))
      && |Window(SplitOn(content, "\n"), f.line.value)| <= 5
    ensures !(f.line.Some? && f.line.value != 0) ==> Attached(f, content) == f
  {
    if f.line.Some? && f.line.value != 0 {
      WindowShape(SplitOn(content, "\n"), f.line.value);
    }
  }

  /** The message of the finding for a file over the size limit. */
  function TooLargeMessage(size: nat): string {
    "Fichier trop volumineux (" + IntToString(size) + " bytes)"
  }

  function FileError(path: string, error: string): Finding {
    Problem("file_error", path, "Erreur lecture fichier: " + error)
  }

  /** What `_analyze_file_with_progress` returns for one code file. */
  function FileFindings(e: Entry, config: Config, search: (string, string) -> bool,
                        llm: (string, string) -> Option<string>): seq<Finding> {
    match e.stat
    case StatError(error) => [FileError(e.path, error)]
    case Stat(size, contents) =>
      if size > config.maxFileSize then [Problem("file_too_large", e.path, TooLargeMessage(size))]
      else match contents
        case ReadError(error) => [FileError(e.path, error)]
        case Read(text) =>
          WithContext(StaticFindings(e.path, text, search)
                      + AiFindings(llm, text, e.path, Name(e.parts), config.maxFileSize), text)
  }

  /**
   * Every finding for a file names that file. A file over the size limit
   * yields only the size finding; one that cannot be read only the read
   * error; otherwise every finding with a non-zero line has its context.
   */
  lemma FileFindingsMeaning(e: Entry, config: Config, search: (string, string) -> bool,
                            llm: (string, string) -> Option<string>)
    ensures forall f :: f in FileFindings(e, config, search, llm) ==> f.file == Some(e.path)
    ensures e.stat.Stat? && e.stat.size > config.maxFileSize ==>
      FileFindings(e, config, search, llm) == [Problem("file_too_large", e.path, TooLargeMessage(e.stat.size))]
    ensures e.stat.StatError? ==> FileFindings(e, config, search, llm) == [FileError(e.path, e.stat.error)]
    ensures e.stat.Stat? && e.stat.size <= config.maxFileSize && e.stat.contents.ReadError? ==>
      FileFindings(e, config, search, llm) == [FileError(e.path, e.stat.contents.error)]
    ensures e.stat.Stat? && e.stat.contents.Read? ==>
      forall f :: f in FileFindings(e, config, search, llm) && f.line.Some? && f.line.value != 0 ==>
        f.codeContext == Some(CodeContextOf(e.stat.contents.text, f.line.value))
  {
    if e.stat.Stat? && e.stat.size <= config.maxFileSize && e.stat.contents.Read? {
      var text := e.stat.contents.text;
      var st := StaticFindings(e.path, text, search);
      var ai := AiFindings(llm, text, e.path, Name(e.parts), config.maxFileSize);
      forall f: Finding | f in st + ai
        ensures f.file == Some(e.path)
      {
        if f in st {
          StaticFindingsSound(e.path, text, search, f);
        } else {
          var reply := llm(AnalysisPayload(text, config.maxFileSize), Name(e.parts));
          if reply.Some? {
            ReplyFindingsEmitted(reply.value, e.path);
          }
        }
      }
      var fs := FileFindings(e, config, search, llm);
      forall f: Finding | f in fs
        ensures f.file == Some(e.path)
        ensures f.line.Some? && f.line.value != 0 ==> f.codeContext == Some(CodeContextOf(text, f.line.value))
      {
        var i :| 0 <= i < |fs| && fs[i] == f;
        assert (st + ai)[i] in st + ai;
      }
    }
  }

  /** The context loop of `_analyze_file_with_progress`: each finding with a non-zero line gets its context. */
  method AttachContexts(found: seq<Finding>, text: string) returns (findings: seq<Finding>)
    ensures findings == WithContext(found, text)
  {
    findings := found;
    for i := 0 to |findings|
      invariant |findings| == |found|
      invariant forall k :: 0 <= k < i ==> findings[k] == Attached(found[k], text)
      invariant forall k :: i <= k < |found| ==> findings[k] == found[k]
    {
      var f := findings[i];
      if f.line.Some? && f.line.value != 0 {
        var context := GetCodeContext(text, f.line.value);
        findings := findings[i := f.(codeContext := Some(context))];
      }
    }
  }

  /** `_analyze_file_with_progress`: the size check, the read, both analyses, then the context loop. */
  method AnalyzeFileWithProgress(e: Entry, config: Config, search: (string, string) -> bool,
                                 llm: (string, string) -> Option<string>) returns (findings: seq<Finding>)
    ensures findings == FileFindings(e, config, search, llm)
  {
    match e.stat {
      case StatError(error) =>
        return [FileError(e.path, error)];
      case Stat(size, contents) =>
        if size > config.maxFileSize {
          return [Problem("file_too_large", e.path, TooLargeMessage(size))];
        }
        match contents {
          case ReadError(error) =>
            return [FileError(e.path, error)];
          case Read(text) =>
            var found := StaticAnalysis(e.path, text, search);
            var ai: seq<Finding> := [];
            var reply := llm(AnalysisPayload(text, config.maxFileSize), Name(e.parts));
            if reply.Some? {
              ai := ParseAiResponse(reply.value, e.path);
            }
            findings := AttachContexts(found + ai, text);
        }
    }
  }

  /** `35 + int((i + 1) / n * 30)`, taken exactly: the percentage reported before analysing file `i` of `n`. */
  function FilePercent(i: nat, n: nat): int
    requires i < n
  {
    35 + (30 * (i + 1)) / n
  }

  lemma DivMonotone(a: nat, b: nat, n: nat)
    requires 0 < n && a <= b
    ensures a / n <= b / n
  {
    if a / n > b / n {
      MulLeft(n, b / n + 1, a / n);
    }
  }

  lemma MulLeft(n: nat, x: int, y: int)
    requires x <= y
    ensures n * x <= n * y
  {
  }

  /** The file percentages lie between 35 and 65, never fall, and the last one is 65. */
  lemma FilePercentBounds(i: nat, j: nat, n: nat)
    requires i <= j < n
    ensures 35 <= FilePercent(i, n) <= FilePercent(j, n) <= 65
    ensures FilePercent(n - 1, n) == 65
  {
    DivMonotone(30 * (i + 1), 30 * (j + 1), n);
    DivMonotone(30 * (j + 1), 30 * n, n);
    assert (30 * n) / n == 30;
  }

  const Opening := [Progress("collecting", 15), Progress("file_collection", 25), Progress("static_analysis", 35)]
  const Closing := [Progress("dependency_check", 75), Progress("generating_report", 90), Progress("complete", 100)]

  /** The reports for the first `k` of `n` code files. */
  function FileSteps(n: nat, k: nat): (ps: seq<Progress>)
    requires k <= n
    ensures |ps| == k
    ensures forall j :: 0 <= j < k ==> ps[j] == Progress("ai_analysis", FilePercent(j, n))
  {
    if k == 0 then [] else FileSteps(n, k - 1) + [Progress("ai_analysis", FilePercent(k - 1, n))]
  }

  /** The progress reports of a scan that reaches its end, with `n` code files. */
  function FullRun(n: nat): seq<Progress> {
    Opening + FileSteps(n, n) + Closing
  }

  predicate NonDecreasing(ps: seq<Progress>) {
    forall a, b :: 0 <= a < b < |ps| ==> ps[a].percent <= ps[b].percent
  }

  /**
   * A full run reports one step per code file between the 35 of static
   * analysis and the 75 of the dependency check; its percentages never fall,
   * stay within 0..100 and end with 100.
   */
  lemma FullRunMeaning(n: nat)
    requires n > 0
    ensures |FullRun(n)| == n + 6 && FullRun(n)[n + 5] == Progress("complete", 100)
    ensures forall k :: 3 <= k < 3 + n ==> FullRun(n)[k].step == "ai_analysis" && 35 <= FullRun(n)[k].percent <= 65
    ensures NonDecreasing(FullRun(n))
    ensures forall k :: 0 <= k < |FullRun(n)| ==> 0 <= FullRun(n)[k].percent <= 100
  {
    var ps := FullRun(n);
    forall k | 3 <= k < 3 + n
      ensures ps[k] == Progress("ai_analysis", FilePercent(k - 3, n))
      ensures 35 <= ps[k].percent <= 65
    {
      assert ps[k] == FileSteps(n, n)[k - 3];
      FilePercentBounds(k - 3, k - 3, n);
    }
    forall a, b | 0 <= a < b < |ps|
      ensures ps[a].percent <= ps[b].percent
    {
      if 3 <= a < b < 3 + n {
        FilePercentBounds(a - 3, b - 3, n);
      }
    }
  }

  /** The findings of the first `k` code files, in file order. */
  function AllFileFindings(files: seq<Entry>, k: nat, config: Config, search: (string, string) -> bool,
                           llm: (string, string) -> Option<string>): seq<Finding>
    requires k <= |files|
  {
    if k == 0 then []
    else AllFileFindings(files, k - 1, config, search, llm) + FileFindings(files[k - 1], config, search, llm)
  }

  /** What `scan_local_directory` returns, and the progress it reports, for a directory named `root`. */
  function ScanLocal(root: string, exists_: bool, entries: seq<Entry>, manifests: map<string, ReadOutcome>,
                     config: Config, search: (string, string) -> bool, llm: (string, string) -> Option<string>,
                     scanDate: string): (ScanOutcome, seq<Progress>)
  {
    if !exists_ then (ScanError("Dossier non trouvé: " + root), [Progress("collecting", 15)])
    else
      var files := Collected(entries);
      if files == [] then
        (ScanError("Aucun fichier de code supporté trouvé"), [Progress("collecting", 15), Progress("file_collection", 25)])
      else
        var found := AllFileFindings(files, |files|, config, search, llm) + DependencyFindings(root, manifests);
        (ScanReport(BuildReport(found, root, scanDate)), FullRun(|files|))
  }

  /**
   * Progress only moves forward and stays within 0..100; a scan that
   * reaches its end reports 100 last, after one report per code file; a
   * scan that stops early reports at most two steps.
   */
  lemma ProgressMeaning(root: string, exists_: bool, entries: seq<Entry>, manifests: map<string, ReadOutcome>,
                        config: Config, search: (string, string) -> bool, llm: (string, string) -> Option<string>,
                        scanDate: string)
    ensures var (outcome, ps) := ScanLocal(root, exists_, entries, manifests, config, search, llm, scanDate);
      && NonDecreasing(ps)
      && (forall k :: 0 <= k < |ps| ==> 0 <= ps[k].percent <= 100)
      && (outcome.ScanReport? ==> |ps| == |Collected(entries)| + 6 && ps[|ps| - 1] == Progress("complete", 100))
      && (outcome.ScanError? ==> |ps| <= 2)
  {
    if exists_ && Collected(entries) != [] {
      FullRunMeaning(|Collected(entries)|);
    }
  }

  lemma AllFileFindingsStep(files: seq<Entry>, i: nat, config: Config, search: (string, string) -> bool,
                            llm: (string, string) -> Option<string>, fs: seq<Finding>)
    requires i < |files| && fs == FileFindings(files[i], config, search, llm)
    ensures AllFileFindings(files, i + 1, config, search, llm) == AllFileFindings(files, i, config, search, llm) + fs
  {
  }

  lemma FileStepsStep(n: nat, i: nat, step: Progress)
    requires i < n && step == Progress("ai_analysis", FilePercent(i, n))
    ensures FileSteps(n, i + 1) == FileSteps(n, i) + [step]
  {
  }

  /** One turn of the file loop: file `i`'s findings appended to those of the files before it. */
  method AnalyzeNextFile(files: seq<Entry>, i: nat, config: Config, search: (string, string) -> bool,
                         llm: (string, string) -> Option<string>, before: seq<Finding>) returns (after: seq<Finding>)
    requires i < |files| && before == AllFileFindings(files, i, config, search, llm)
    ensures after == AllFileFindings(files, i + 1, config, search, llm)
  {
    var fileFindings := AnalyzeFileWithProgress(files[i], config, search, llm);
    AllFileFindingsStep(files, i, config, search, llm, fileFindings);
    after := before + fileFindings;
  }

  /** The file loop of `scan_local_directory`: a progress report, then the file's findings, file after file. */
  method AnalyzeCodeFiles(files: seq<Entry>, config: Config, search: (string, string) -> bool,
                          llm: (string, string) -> Option<string>, progressBefore: seq<Progress>)
    returns (vulnerabilities: seq<Finding>, progress: seq<Progress>)
    ensures vulnerabilities == AllFileFindings(files, |files|, config, search, llm)
    ensures progress == progressBefore + FileSteps(|files|, |files|)
  {
    var n := |files|;
    vulnerabilities := [];
    progress := progressBefore;
    assert progress == progressBefore + FileSteps(n, 0);
    for i := 0 to n
      invariant vulnerabilities == AllFileFindings(files, i, config, search, llm)
      invariant progress == progressBefore + FileSteps(n, i)
    {
      var step := Progress("ai_analysis", FilePercent(i, n));
      FileStepsStep(n, i, step);
      Associate(progressBefore, FileSteps(n, i), [step]);
      progress := progress + [step];
      vulnerabilities := AnalyzeNextFile(files, i, config, search, llm, vulnerabilities);
    }
  }

  lemma FullRunEnds(n: nat, ps: seq<Progress>)
    requires ps == Opening + FileSteps(n, n) + [Progress("dependency_check", 75)] + [Progress("generating_report", 90)]
                   + [Progress("complete", 100)]
    ensures ps == FullRun(n)
  {
    assert Closing == [Progress("dependency_check", 75)] + [Progress("generating_report", 90)] + [Progress("complete", 100)];
  }

  /** `scan_local_directory`: collection, the file loop, the dependency audit and the report. */
  method ScanLocalDirectory(root: string, exists_: bool, entries: seq<Entry>, manifests: map<string, ReadOutcome>,
                            config: Config, search: (string, string) -> bool,
                            llm: (string, string) -> Option<string>, scanDate: string)
    returns (outcome: ScanOutcome, progress: seq<Progress>)
    ensures (outcome, progress) == ScanLocal(root, exists_, entries, manifests, config, search, llm, scanDate)
  {
    progress := [Progress("collecting", 15)];
    if !exists_ {
      return ScanError("Dossier non trouvé: " + root), progress;
    }
    var files := CollectCodeFiles(entries);
    progress := progress + [Progress("file_collection", 25)];
    if files == [] {
      assert progress == [Progress("collecting", 15), Progress("file_collection", 25)];
      return ScanError("Aucun fichier de code supporté trouvé"), progress;
    }
    progress := progress + [Progress("static_analysis", 35)];
    assert progress == Opening by {
      assert progress == [Progress("collecting", 15), Progress("file_collection", 25), Progress("static_analysis", 35)];
    }
    var vulnerabilities;
    vulnerabilities, progress := AnalyzeCodeFiles(files, config, search, llm, progress);
    progress := progress + [Progress("dependency_check", 75)];
    var dependencyFindings := AnalyzeDependencies(root, manifests);
    vulnerabilities := vulnerabilities + dependencyFindings;
    progress := progress + [Progress("generating_report", 90)];
    var report := GenerateReport(vulnerabilities, root, scanDate);
    progress := progress + [Progress("complete", 100)];
    FullRunEnds(|files|, progress);
    outcome := ScanReport(report);
  }
}
