/**
 * The dependency audit (`_analyze_dependencies`, `_analyze_python_deps`):
 * the manifests at the root of the scanned directory are read, and the
 * pinned Python requirements are compared with a fixed list of packages
 * known to have had vulnerabilities.
 */
module DependencyAudit {
  import opened Wrappers
  import opened Text
  import opened ScanModel

  /** The packages flagged whatever their pinned version (the version bounds listed beside them are never consulted). */
  const VulnerablePackages: set<string> := {"django", "flask", "requests", "urllib3"}

  /** The manifests looked for, with their ecosystems, in the order they are examined. */
  const DepFiles: seq<(string, string)> :=
    [("requirements.txt", "python"), ("package.json", "npm"), ("pom.xml", "maven"), ("Gemfile", "ruby")]

  /** The text of the `ValueError` raised by `package, version = line.split('==')` on more than two parts. */
  const UnpackError := "too many values to unpack (expected 2)"

  /** What one requirements line is: no pin, a pin that cannot be unpacked, or a package and version. */
  datatype Requirement = NoPin | BadPin | Pin(package: string, version: string)

  function Classify(raw: string): Requirement {
    var line := Strip(raw);
    if !Contains(line, "==") then NoPin
    else
      var parts := SplitOn(line, "==");
      if |parts| != 2 then BadPin else Pin(Strip(parts[0]), Strip(parts[1]))
  }

  /** A line holding `==` splits into at least two parts, so only "too many values" can go wrong. */
  lemma ClassifyPins(raw: string)
    ensures Classify(raw) == NoPin <==> !Contains(Strip(raw), "==")
    ensures Classify(raw) == BadPin <==> |SplitOn(Strip(raw), "==")| > 2
  {
    SplitCountsSeparators(Strip(raw), "==");
  }

  /** The finding for a flagged package; it names the package but no file. */
  function DependencyFinding(package: string, version: string): Finding {
    NoFields.(kind := Some("vulnerable_dependency"), package := Some(package), version := Some(version),
              severity := Some("medium"),
              description := Some("Package " + package + " version " + version + " peut avoir des vulnérabilités"))
  }

  /** The findings of one line that is not a bad pin. */
  function PinFindings(r: Requirement): seq<Finding> {
    if r.Pin? && r.package in VulnerablePackages then [DependencyFinding(r.package, r.version)] else []
  }

  /** Every line of a requirements file, classified. */
  function Requirements(lines: seq<string>): (reqs: seq<Requirement>)
    ensures |reqs| == |lines|
    ensures forall i :: 0 <= i < |lines| ==> reqs[i] == Classify(lines[i])
  {
    seq(|lines|, i requires 0 <= i < |lines| => Classify(lines[i]))
  }

  /** `_analyze_python_deps` on classified lines; an unpacking error aborts it. */
  function Audit(reqs: seq<Requirement>): Result<seq<Finding>, string>
    decreases |reqs|
  {
    if reqs == [] then Success([])
    else if reqs[0] == BadPin then Failure(UnpackError)
    else
      match Audit(reqs[1..])
      case Failure(e) => Failure(e)
      case Success(rest) => Success(PinFindings(reqs[0]) + rest)
  }

  /** `_analyze_python_deps` on the lines of a requirements file. */
  function PythonDeps(lines: seq<string>): Result<seq<Finding>, string> {
    Audit(Requirements(lines))
  }

  /** The audit fails exactly when some line is a pin with more than one `==`, and then with the unpacking error. */
  lemma {:induction false} AuditFails(reqs: seq<Requirement>)
    ensures Audit(reqs).Failure? <==> BadPin in reqs
    ensures Audit(reqs).Failure? ==> Audit(reqs).error == UnpackError
    decreases |reqs|
  {
    if reqs != [] {
      AuditFails(reqs[1..]);
      assert reqs == [reqs[0]] + reqs[1..];
    }
  }

  /** A pin of a flagged package. */
  predicate Flagged(r: Requirement) {
    r.Pin? && r.package in VulnerablePackages
  }

  /**
   * A successful audit reports a finding exactly for every pin of a flagged
   * package, and nothing else.
   */
  lemma {:induction false} AuditFlags(reqs: seq<Requirement>, f: Finding)
    requires Audit(reqs).Success?
    ensures f in Audit(reqs).value <==>
      exists r :: r in reqs && Flagged(r) && f == DependencyFinding(r.package, r.version)
    decreases |reqs|
  {
    if reqs != [] {
      AuditFlags(reqs[1..], f);
      assert reqs == [reqs[0]] + reqs[1..];
      if exists r :: r in reqs && Flagged(r) && f == DependencyFinding(r.package, r.version) {
        var r :| r in reqs && Flagged(r) && f == DependencyFinding(r.package, r.version);
        if r != reqs[0] {
          assert r in reqs[1..];
        }
      }
    }
  }

  /** Indices `idx` moved one place to the right. */
  function Shifted(idx: seq<nat>): seq<nat> {
    seq(|idx|, t requires 0 <= t < |idx| => idx[t] + 1)
  }

  /** The indices, in increasing order, of the pins of flagged packages. */
  function FlaggedIndices(reqs: seq<Requirement>): seq<nat>
    decreases |reqs|
  {
    if reqs == [] then []
    else (if Flagged(reqs[0]) then [0] else []) + Shifted(FlaggedIndices(reqs[1..]))
  }

  /** `FlaggedIndices` names only flagged pins. */
  lemma {:induction false} FlaggedSound(reqs: seq<Requirement>)
    ensures forall t :: 0 <= t < |FlaggedIndices(reqs)| ==>
      FlaggedIndices(reqs)[t] < |reqs| && Flagged(reqs[FlaggedIndices(reqs)[t]])
    decreases |reqs|
  {
    if reqs != [] {
      var tail := reqs[1..];
      FlaggedSound(tail);
      var later := FlaggedIndices(tail);
      var head: seq<nat> := if Flagged(reqs[0]) then [0] else [];
      var idx := FlaggedIndices(reqs);
      assert idx == head + Shifted(later);
      forall t | 0 <= t < |idx| ensures idx[t] < |reqs| && Flagged(reqs[idx[t]]) {
        if t >= |head| {
          assert idx[t] == later[t - |head|] + 1;
          assert reqs[idx[t]] == tail[later[t - |head|]];
        }
      }
    }
  }

  /** `FlaggedIndices` is strictly increasing, so no line appears twice. */
  lemma {:induction false} FlaggedSorted(reqs: seq<Requirement>)
    ensures forall a, b :: 0 <= a < b < |FlaggedIndices(reqs)| ==> FlaggedIndices(reqs)[a] < FlaggedIndices(reqs)[b]
    decreases |reqs|
  {
    if reqs != [] {
      var tail := reqs[1..];
      FlaggedSorted(tail);
      var later := FlaggedIndices(tail);
      var head: seq<nat> := if Flagged(reqs[0]) then [0] else [];
      var idx := FlaggedIndices(reqs);
      assert idx == head + Shifted(later);
      forall a, b | 0 <= a < b < |idx| ensures idx[a] < idx[b] {
        assert idx[b] == later[b - |head|] + 1;
        if a >= |head| {
          assert idx[a] == later[a - |head|] + 1;
        }
      }
    }
  }

  /** A flagged pin appears in `FlaggedIndices`, at index `t`. */
  lemma {:induction false} FlaggedIndex(reqs: seq<Requirement>, i: nat) returns (t: nat)
    requires i < |reqs| && Flagged(reqs[i])
    ensures t < |FlaggedIndices(reqs)| && FlaggedIndices(reqs)[t] == i
    decreases |reqs|
  {
    var tail := reqs[1..];
    var later := FlaggedIndices(tail);
    var head: seq<nat> := if Flagged(reqs[0]) then [0] else [];
    assert FlaggedIndices(reqs) == head + Shifted(later);
    if i == 0 {
      t := 0;
    } else {
      assert tail[i - 1] == reqs[i];
      var u := FlaggedIndex(tail, i - 1);
      t := |head| + u;
      assert FlaggedIndices(reqs)[t] == Shifted(later)[u] == i;
    }
  }

  /** The findings for the pins at indices `idx`. */
  function Reported(reqs: seq<Requirement>, idx: seq<nat>): seq<Finding>
    requires forall t :: 0 <= t < |idx| ==> idx[t] < |reqs| && Flagged(reqs[idx[t]])
  {
    seq(|idx|, t requires 0 <= t < |idx| && idx[t] < |reqs| && Flagged(reqs[idx[t]]) =>
      DependencyFinding(reqs[idx[t]].package, reqs[idx[t]].version))
  }

  /** A successful audit reports the findings at `FlaggedIndices`. */
  lemma {:induction false} AuditReports(reqs: seq<Requirement>)
    requires Audit(reqs).Success?
    ensures forall t :: 0 <= t < |FlaggedIndices(reqs)| ==>
      FlaggedIndices(reqs)[t] < |reqs| && Flagged(reqs[FlaggedIndices(reqs)[t]])
    ensures Audit(reqs).value == Reported(reqs, FlaggedIndices(reqs))
    decreases |reqs|
  {
    FlaggedSound(reqs);
    if reqs != [] {
      var tail := reqs[1..];
      AuditReports(tail);
      FlaggedSound(tail);
      var later := FlaggedIndices(tail);
      var head: seq<nat> := if Flagged(reqs[0]) then [0] else [];
      var idx := FlaggedIndices(reqs);
      assert idx == head + Shifted(later);
      var found := Audit(reqs).value;
      var first := PinFindings(reqs[0]);
      var rest := Audit(tail).value;
      assert found == first + rest;
      assert rest == Reported(tail, later);
      var r := Reported(reqs, idx);
      forall t | 0 <= t < |found| ensures found[t] == r[t] {
        if t >= |first| {
          var u := t - |first|;
          assert idx[t] == later[u] + 1 && found[t] == rest[u];
          assert reqs[idx[t]] == tail[later[u]];
        }
      }
    }
  }

  /**
   * Multiplicity and order: a successful audit reports one finding per pin
   * of a flagged package, in the order of the lines. It is the findings at
   * indices `idx`, which name only flagged pins, strictly increase, and
   * include every flagged pin.
   */
  lemma AuditOrder(reqs: seq<Requirement>) returns (idx: seq<nat>)
    requires Audit(reqs).Success?
    ensures forall t :: 0 <= t < |idx| ==> idx[t] < |reqs| && Flagged(reqs[idx[t]])
    ensures Audit(reqs).value == Reported(reqs, idx)
    ensures forall a, b :: 0 <= a < b < |idx| ==> idx[a] < idx[b]
    ensures forall i :: 0 <= i < |reqs| && Flagged(reqs[i]) ==> i in idx
  {
    idx := FlaggedIndices(reqs);
    FlaggedSound(reqs);
    FlaggedSorted(reqs);
    AuditReports(reqs);
    forall i | 0 <= i < |reqs| && Flagged(reqs[i]) ensures i in idx {
      var t := FlaggedIndex(reqs, i);
    }
  }

  /**
   * The same for a requirements file: when the audit succeeds, finding `t`
   * is that of line `idx[t]`, the lines increase, and every line pinning a
   * flagged package is one of them.
   */
  lemma PythonDepsOrder(lines: seq<string>) returns (idx: seq<nat>)
    requires PythonDeps(lines).Success?
    ensures |idx| == |PythonDeps(lines).value|
    ensures forall t :: 0 <= t < |idx| ==>
      && idx[t] < |lines| && Flagged(Classify(lines[idx[t]]))
      && PythonDeps(lines).value[t] == DependencyFinding(Classify(lines[idx[t]]).package, Classify(lines[idx[t]]).version)
    ensures forall a, b :: 0 <= a < b < |idx| ==> idx[a] < idx[b]
    ensures forall i :: 0 <= i < |lines| && Flagged(Classify(lines[i])) ==> i in idx
  {
    var reqs := Requirements(lines);
    idx := AuditOrder(reqs);
    forall t | 0 <= t < |idx|
      ensures PythonDeps(lines).value[t] == DependencyFinding(Classify(lines[idx[t]]).package, Classify(lines[idx[t]]).version)
    {
      assert PythonDeps(lines).value[t] == Reported(reqs, idx)[t];
    }
    forall i | 0 <= i < |lines| && Flagged(Classify(lines[i])) ensures i in idx {
      assert reqs[i] == Classify(lines[i]);
    }
  }

  /** The audit of a requirements file in terms of its lines: when it fails, and what it reports. */
  lemma PythonDepsMeaning(lines: seq<string>, f: Finding)
    ensures PythonDeps(lines).Failure? <==> exists i :: 0 <= i < |lines| && Classify(lines[i]) == BadPin
    ensures PythonDeps(lines).Failure? ==> PythonDeps(lines).error == UnpackError
    ensures PythonDeps(lines).Success? ==>
      (f in PythonDeps(lines).value <==>
        exists i :: 0 <= i < |lines| && Flagged(Classify(lines[i]))
          && f == DependencyFinding(Classify(lines[i]).package, Classify(lines[i]).version))
  {
    var reqs := Requirements(lines);
    AuditFails(reqs);
    if BadPin in reqs {
      var i :| 0 <= i < |reqs| && reqs[i] == BadPin;
    }
    if Audit(reqs).Success? {
      AuditFlags(reqs, f);
      if exists r :: r in reqs && Flagged(r) && f == DependencyFinding(r.package, r.version) {
        var r :| r in reqs && Flagged(r) && f == DependencyFinding(r.package, r.version);
        var i :| 0 <= i < |reqs| && reqs[i] == r;
      }
    }
  }

  /** Appends the findings of `rest` to `found`, keeping a failure as it is. */
  function After(found: seq<Finding>, rest: Result<seq<Finding>, string>): Result<seq<Finding>, string> {
    match rest
    case Failure(e) => Failure(e)
    case Success(fs) => Success(found + fs)
  }

  lemma AuditFrom(reqs: seq<Requirement>, i: nat)
    requires i < |reqs| && reqs[i] != BadPin
    ensures Audit(reqs[i..]) == After(PinFindings(reqs[i]), Audit(reqs[i + 1..]))
  {
    assert reqs[i..][0] == reqs[i] && reqs[i..][1..] == reqs[i + 1..];
  }

  lemma AfterNothing(rest: Result<seq<Finding>, string>)
    ensures After([], rest) == rest
  {
    if rest.Success? {
      assert [] + rest.value == rest.value;
    }
  }

  lemma AfterAfter(found: seq<Finding>, more: seq<Finding>, rest: Result<seq<Finding>, string>)
    ensures After(found, After(more, rest)) == After(found + more, rest)
  {
    if rest.Success? {
      assert found + (more + rest.value) == (found + more) + rest.value;
    }
  }

  /** The body of the loop over the lines: strip, look for `==`, split and unpack. */
  method ClassifyLine(raw: string) returns (req: Requirement)
    ensures req == Classify(raw)
  {
    var line := Strip(raw);
    if Contains(line, "==") {
      var parts := SplitOn(line, "==");
      if |parts| != 2 {
        return BadPin;
      }
      return Pin(Strip(parts[0]), Strip(parts[1]));
    }
    return NoPin;
  }

  /** `_analyze_python_deps`: one pass over the lines; the first bad pin raises. */
  method AnalyzePythonDeps(content: string) returns (r: Result<seq<Finding>, string>)
    ensures r == PythonDeps(SplitOn(content, "\n"))
  {
    var lines := SplitOn(content, "\n");
    ghost var reqs := Requirements(lines);
    var found: seq<Finding> := [];
    AfterNothing(Audit(reqs));
    assert reqs[0..] == reqs;
    for i := 0 to |lines|
      invariant Audit(reqs) == After(found, Audit(reqs[i..]))
    {
      var req := ClassifyLine(lines[i]);
      assert req == reqs[i];
      if req == BadPin {
        assert reqs[i..][0] == BadPin;
        return Failure(UnpackError);
      }
      AuditFrom(reqs, i);
      AfterAfter(found, PinFindings(req), Audit(reqs[i + 1..]));
      found := found + PinFindings(req);  // the finding for a flagged package, if it is one
    }
    assert reqs[|lines|..] == [] && found + [] == found;
    return Success(found);
  }

  /** `directory / name` as a string, for a directory given without a trailing separator. */
  function ChildPath(root: string, name: string): string {
    root + "/" + name
  }

  /** The finding for a manifest that could not be read or audited. */
  function DependencyProblem(path: string, error: string): Finding {
    NoFields.(kind := Some("dependency_error"), file := Some(path),
              message := Some("Erreur analyse dépendances: " + error), severity := Some("low"))
  }

  /** The findings for one existing manifest: only the Python one is audited. */
  function ManifestFindings(path: string, ecosystem: string, read: ReadOutcome): seq<Finding> {
    match read
    case ReadError(e) => [DependencyProblem(path, e)]
    case Read(content) =>
      if ecosystem != "python" then []
      else match PythonDeps(SplitOn(content, "\n"))
        case Failure(e) => [DependencyProblem(path, e)]
        case Success(fs) => fs
  }

  /**
   * `_analyze_dependencies` over the first `k` manifests of `DepFiles`;
   * `manifests` maps the names present at the root to what reading them gives.
   */
  function DependencyFindingsUpTo(root: string, manifests: map<string, ReadOutcome>, k: nat): seq<Finding>
    requires k <= |DepFiles|
  {
    if k == 0 then []
    else
      var (name, ecosystem) := DepFiles[k - 1];
      DependencyFindingsUpTo(root, manifests, k - 1)
      + (if name in manifests then ManifestFindings(ChildPath(root, name), ecosystem, manifests[name]) else [])
  }

  function DependencyFindings(root: string, manifests: map<string, ReadOutcome>): seq<Finding> {
    DependencyFindingsUpTo(root, manifests, |DepFiles|)
  }

  /**
   * Every finding of the audit is either an error naming a manifest that is
   * present, with low severity, or a medium-severity flagged package.
   */
  lemma {:induction false} DependencyFindingsShape(root: string, manifests: map<string, ReadOutcome>, k: nat)
    requires k <= |DepFiles|
    ensures forall f :: f in DependencyFindingsUpTo(root, manifests, k) ==>
      (f.kind == Some("dependency_error") && f.severity == Some("low")
        && exists j :: 0 <= j < k && DepFiles[j].0 in manifests && f.file == Some(ChildPath(root, DepFiles[j].0)))
      || (f.kind == Some("vulnerable_dependency") && f.severity == Some("medium") && f.file.None?
        && f.package.Some? && f.package.value in VulnerablePackages)
  {
    if k > 0 {
      DependencyFindingsShape(root, manifests, k - 1);
      var (name, ecosystem) := DepFiles[k - 1];
      if name in manifests {
        match manifests[name]
        case ReadError(e) =>
        case Read(content) =>
          var lines := SplitOn(content, "\n");
          if ecosystem == "python" && PythonDeps(lines).Success? {
            forall f | f in PythonDeps(lines).value
              ensures f.kind == Some("vulnerable_dependency") && f.severity == Some("medium") && f.file.None?
                && f.package.Some? && f.package.value in VulnerablePackages
            {
              AuditFlags(Requirements(lines), f);
            }
          }
      }
    }
  }

  /** When every other manifest reads, only `requirements.txt` contributes findings. */
  lemma OnlyRequirementsAudited(root: string, manifests: map<string, ReadOutcome>)
    requires forall name :: name in manifests && name != "requirements.txt" ==> manifests[name].Read?
    ensures DependencyFindings(root, manifests) ==
      if "requirements.txt" in manifests
      then ManifestFindings(ChildPath(root, "requirements.txt"), "python", manifests["requirements.txt"])
      else []
  {
    assert DepFiles[0].0 == "requirements.txt" && DepFiles[1].0 != "requirements.txt";
    assert DepFiles[2].0 != "requirements.txt" && DepFiles[3].0 != "requirements.txt";
    var present := "requirements.txt" in manifests;
    var first := if present
      then ManifestFindings(ChildPath(root, "requirements.txt"), "python", manifests["requirements.txt"])
      else [];
    assert DependencyFindingsUpTo(root, manifests, 1) == first;
    assert DependencyFindingsUpTo(root, manifests, 2) == first;
    assert DependencyFindingsUpTo(root, manifests, 3) == first;
  }

  /** `_analyze_dependencies`: the manifests in order, each one that exists read and audited. */
  method AnalyzeDependencies(root: string, manifests: map<string, ReadOutcome>) returns (findings: seq<Finding>)
    ensures findings == DependencyFindings(root, manifests)
  {
    findings := [];
    for k := 0 to |DepFiles|
      invariant findings == DependencyFindingsUpTo(root, manifests, k)
    {
      var (name, ecosystem) := DepFiles[k];
      var path := ChildPath(root, name);
      if name in manifests {
        match manifests[name]
        case ReadError(e) =>
          findings := findings + [DependencyProblem(path, e)];
        case Read(content) =>
          if ecosystem == "python" {
            var r := AnalyzePythonDeps(content);
            match r
            case Failure(e) => findings := findings + [DependencyProblem(path, e)];
            case Success(fs) => findings := findings + fs;
          }
      }
    }
  }
}
