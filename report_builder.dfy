/**
 * The final report (`_generate_report`, `_generate_recommendations`):
 * findings are tallied by severity, a security score out of 100 is derived
 * from weighted counts, every finding is cleaned into a fixed shape, and
 * one piece of advice is given per kind of vulnerability found.
 */
module ReportBuilder {
  import opened Wrappers
  import opened Text
  import opened ScanModel

  /** The `severity_breakdown` dict. */
  datatype Counts = Counts(critical: nat, high: nat, medium: nat, low: nat)

  function Total(c: Counts): nat {
    c.critical + c.high + c.medium + c.low
  }

  /** The bucket a finding is counted in: its severity when it is one of the four, 'low' otherwise or when missing. */
  function Bucket(severity: Option<string>): string {
    var s := severity.GetOr("low");
    if s == "critical" || s == "high" || s == "medium" then s else "low"
  }

  function AddTo(c: Counts, bucket: string): Counts {
    if bucket == "critical" then c.(critical := c.critical + 1)
    else if bucket == "high" then c.(high := c.high + 1)
    else if bucket == "medium" then c.(medium := c.medium + 1)
    else c.(low := c.low + 1)
  }

  /** The severity breakdown of `fs`. */
  function Tally(fs: seq<Finding>): Counts {
    if fs == [] then Counts(0, 0, 0, 0)
    else AddTo(Tally(fs[..|fs| - 1]), Bucket(fs[|fs| - 1].severity))
  }

  /** Every finding is counted once: the breakdown sums to the number of findings. */
  lemma {:induction false} TallyTotal(fs: seq<Finding>)
    ensures Total(Tally(fs)) == |fs|
  {
    if fs != [] {
      TallyTotal(fs[..|fs| - 1]);
    }
  }

  /** Ten points per critical, five per high, two per medium and one per low finding. */
  function Weight(c: Counts): nat {
    10 * c.critical + 5 * c.high + 2 * c.medium + c.low
  }

  /** `max(0, min(100, 100 - total_weight))`. */
  function Score(c: Counts): int {
    var raw := 100 - Weight(c);
    if raw > 100 then 100 else if raw < 0 then 0 else raw
  }

  function SecurityScore(fs: seq<Finding>): int {
    Score(Tally(fs))
  }

  /**
   * The score lies between 0 and 100; it is 100 exactly when nothing was
   * found, and each finding costs between one and ten points until it reaches 0.
   */
  lemma ScoreBounds(fs: seq<Finding>)
    ensures 0 <= SecurityScore(fs) <= 100
    ensures SecurityScore(fs) == 100 <==> fs == []
    ensures SecurityScore(fs) >= 100 - 10 * |fs|
    ensures SecurityScore(fs) <= 100 - |fs| || SecurityScore(fs) == 0
  {
    TallyTotal(fs);
  }

  /** Reporting one more finding never raises the score, and lowers it while it is above 0. */
  lemma ScoreMonotone(fs: seq<Finding>, f: Finding)
    ensures SecurityScore(fs + [f]) <= SecurityScore(fs)
    ensures SecurityScore(fs) > 0 ==> SecurityScore(fs + [f]) < SecurityScore(fs)
  {
    assert (fs + [f])[..|fs|] == fs;
  }

  /** A finding as the report lists it: the four fixed keys, then the optional ones. */
  datatype CleanFinding = CleanFinding(
    kind: string,
    severity: string,
    description: string,
    file: string,
    line: Option<int>,
    code: Option<string>,
    codeContext: Option<string>)

  /** At most `k` leading characters of an optional text. */
  function Capped(text: Option<string>, k: nat): (r: Option<string>)
    ensures r.Some? <==> text.Some?
    ensures r.Some? ==> |r.value| <= k && StartsWith(text.value, r.value)
    ensures r.Some? && |text.value| <= k ==> r == text
    ensures text.Some? && |text.value| > k ==> r == Some(text.value[..k])
  {
    match text
    case None => None
    case Some(t) => assert t[..|t|] == t; Some(PyTake(t, k))
  }

  /** One cleaned finding: defaults for missing keys, the code cut to 500 and its context to 1000 characters. */
  function Clean(f: Finding): (c: CleanFinding)
    ensures c.kind == if f.kind.Some? then f.kind.value else "unknown"
    ensures c.severity == if f.severity.Some? then f.severity.value else "low"
    ensures c.description == if f.description.Some? then f.description.value
                             else if f.message.Some? then f.message.value else "No description"
    ensures c.file == if f.file.Some? then f.file.value else "unknown"
    ensures c.line == f.line
    ensures c.code == Capped(f.code, 500) && c.codeContext == Capped(f.codeContext, 1000)
    ensures c.code.Some? ==> |c.code.value| <= 500
    ensures c.codeContext.Some? ==> |c.codeContext.value| <= 1000
  {
    CleanFinding(
      f.kind.GetOr("unknown"),
      f.severity.GetOr("low"),
      match f.description
      case Some(d) => d
      case None => f.message.GetOr("No description"),
      f.file.GetOr("unknown"),
      f.line,
      Capped(f.code, 500),
      Capped(f.codeContext, 1000))
  }

  function Cleaned(fs: seq<Finding>): (cs: seq<CleanFinding>)
    ensures |cs| == |fs|
    ensures forall i :: 0 <= i < |fs| ==> cs[i] == Clean(fs[i])
  {
    seq(|fs|, i requires 0 <= i < |fs| => Clean(fs[i]))
  }

  /** The advice given for each kind, in the order it is given. */
  const Advice: seq<(string, string)> := [
    ("sql_injection", "Utilisez des requêtes préparées pour éviter les injections SQL"),
    ("xss", "Validez et échappez toutes les entrées utilisateur"),
    ("hardcoded_secrets", "Déplacez les secrets vers des variables d'environnement"),
    ("insecure_crypto", "Utilisez des algorithmes de chiffrement sécurisés (SHA-256, AES)")]

  /** The set of `vuln.get('type', '')` over the findings. */
  function KindsOf(fs: seq<Finding>): set<string> {
    set f | f in fs :: f.kind.GetOr("")
  }

  /** The advice for the first `k` kinds of `Advice` that occur in `kinds`. */
  function AdviceUpTo(kinds: set<string>, k: nat): seq<string>
    requires k <= |Advice|
  {
    if k == 0 then []
    else AdviceUpTo(kinds, k - 1) + (if Advice[k - 1].0 in kinds then [Advice[k - 1].1] else [])
  }

  function Recommendations(fs: seq<Finding>): seq<string> {
    AdviceUpTo(KindsOf(fs), |Advice|)
  }

  /**
   * The advice is given exactly for the kinds found, each piece at most
   * once, in the fixed order: piece `t` is the advice of table entry
   * `idx[t]`, and those entries increase.
   */
  lemma {:induction false} AdviceMeaning(kinds: set<string>, k: nat) returns (idx: seq<nat>)
    requires k <= |Advice|
    ensures forall r :: r in AdviceUpTo(kinds, k) <==> exists j :: 0 <= j < k && Advice[j].0 in kinds && Advice[j].1 == r
    ensures forall a, b :: 0 <= a < b < |AdviceUpTo(kinds, k)| ==> AdviceUpTo(kinds, k)[a] != AdviceUpTo(kinds, k)[b]
    ensures |AdviceUpTo(kinds, k)| <= k
    ensures |idx| == |AdviceUpTo(kinds, k)|
    ensures forall t :: 0 <= t < |idx| ==>
      idx[t] < k && Advice[idx[t]].0 in kinds && AdviceUpTo(kinds, k)[t] == Advice[idx[t]].1
    ensures forall a, b :: 0 <= a < b < |idx| ==> idx[a] < idx[b]
  {
    if k == 0 {
      idx := [];
    } else {
      var prevIdx := AdviceMeaning(kinds, k - 1);
      var prev := AdviceUpTo(kinds, k - 1);
      assert forall j :: 0 <= j < k - 1 ==> Advice[j].1 != Advice[k - 1].1;
      assert Advice[k - 1].1 !in prev;
      if Advice[k - 1].0 in kinds {
        idx := prevIdx + [k - 1];
        assert AdviceUpTo(kinds, k) == prev + [Advice[k - 1].1];
      } else {
        idx := prevIdx;
        assert AdviceUpTo(kinds, k) == prev;
      }
    }
  }

  /**
   * Advice appears exactly when a finding of the matching kind was
   * reported, in the order of the table; there are at most four pieces,
   * none repeated.
   */
  lemma RecommendationsMeaning(fs: seq<Finding>) returns (idx: seq<nat>)
    ensures forall r :: r in Recommendations(fs) <==>
      exists j :: 0 <= j < |Advice| && Advice[j].1 == r && exists f :: f in fs && f.kind == Some(Advice[j].0)
    ensures |Recommendations(fs)| <= 4
    ensures forall a, b :: 0 <= a < b < |Recommendations(fs)| ==> Recommendations(fs)[a] != Recommendations(fs)[b]
    ensures |idx| == |Recommendations(fs)|
    ensures forall t :: 0 <= t < |idx| ==> idx[t] < |Advice| && Recommendations(fs)[t] == Advice[idx[t]].1
    ensures forall a, b :: 0 <= a < b < |idx| ==> idx[a] < idx[b]
  {
    idx := AdviceMeaning(KindsOf(fs), |Advice|);
    forall j | 0 <= j < |Advice|
      ensures Advice[j].0 in KindsOf(fs) <==> exists f :: f in fs && f.kind == Some(Advice[j].0)
    {
      if Advice[j].0 in KindsOf(fs) {
        var f :| f in fs && f.kind.GetOr("") == Advice[j].0;
        assert f.kind == Some(Advice[j].0);
      }
    }
  }

  /** `_generate_recommendations`: the set of kinds, then one test per kind in the fixed order. */
  method GenerateRecommendations(fs: seq<Finding>) returns (recommendations: seq<string>)
    ensures recommendations == Recommendations(fs)
  {
    var kinds: set<string> := {};
    for i := 0 to |fs|
      invariant kinds == KindsOf(fs[..i])
    {
      kinds := kinds + {fs[i].kind.GetOr("")};
      assert fs[..i + 1] == fs[..i] + [fs[i]];
    }
    assert fs[..|fs|] == fs;
    recommendations := [];
    if "sql_injection" in kinds {
      recommendations := recommendations + ["Utilisez des requêtes préparées pour éviter les injections SQL"];
    }
    assert recommendations == AdviceUpTo(kinds, 1);
    if "xss" in kinds {
      recommendations := recommendations + ["Validez et échappez toutes les entrées utilisateur"];
    }
    assert recommendations == AdviceUpTo(kinds, 2);
    if "hardcoded_secrets" in kinds {
      recommendations := recommendations + ["Déplacez les secrets vers des variables d'environnement"];
    }
    assert recommendations == AdviceUpTo(kinds, 3);
    if "insecure_crypto" in kinds {
      recommendations := recommendations + ["Utilisez des algorithmes de chiffrement sécurisés (SHA-256, AES)"];
    }
  }

  /** The report's `summary` dict. */
  datatype Summary = Summary(totalVulnerabilities: nat, securityScore: int, severityBreakdown: Counts,
                             scanDate: string, target: string)

  datatype Report = Report(summary: Summary, vulnerabilities: seq<CleanFinding>, recommendations: seq<string>,
                           success: bool)

  /** The report for `fs`; `scanDate` is the clock reading `datetime.now().isoformat()` gives. */
  function BuildReport(fs: seq<Finding>, target: string, scanDate: string): Report {
    Report(Summary(|fs|, SecurityScore(fs), Tally(fs), scanDate, target), Cleaned(fs), Recommendations(fs), true)
  }

  /** The report's summary agrees with its findings: counts, score and advice. */
  lemma ReportConsistent(fs: seq<Finding>, target: string, scanDate: string)
    ensures var r := BuildReport(fs, target, scanDate);
      && Total(r.summary.severityBreakdown) == r.summary.totalVulnerabilities == |r.vulnerabilities|
      && 0 <= r.summary.securityScore <= 100
      && (r.summary.securityScore == 100 <==> r.vulnerabilities == [])
      && |r.recommendations| <= 4
  {
    TallyTotal(fs);
    ScoreBounds(fs);
    var _ := RecommendationsMeaning(fs);
  }

  /** The counting loop of `_generate_report`: `severity_counts` incremented once per finding. */
  method CountSeverities(fs: seq<Finding>) returns (counts: Counts)
    ensures counts == Tally(fs)
  {
    counts := Counts(0, 0, 0, 0);
    for i := 0 to |fs|
      invariant counts == Tally(fs[..i])
    {
      var severity := fs[i].severity.GetOr("low");
      if severity == "critical" || severity == "high" || severity == "medium" || severity == "low" {
        counts := AddTo(counts, severity);
      } else {
        counts := counts.(low := counts.low + 1);
      }
      assert fs[..i + 1][..i] == fs[..i];
    }
    assert fs[..|fs|] == fs;
  }

  /** The cleaning loop of `_generate_report`: one cleaned finding appended per finding. */
  method CleanFindings(fs: seq<Finding>) returns (cleaned: seq<CleanFinding>)
    ensures cleaned == Cleaned(fs)
  {
    cleaned := [];
    for i := 0 to |fs|
      invariant cleaned == Cleaned(fs[..i])
    {
      cleaned := cleaned + [Clean(fs[i])];
    }
    assert fs[..|fs|] == fs;
  }

  /** `_generate_report`: the counting loop, the score, the cleaning loop and the recommendations. */
  method GenerateReport(fs: seq<Finding>, target: string, scanDate: string) returns (report: Report)
    ensures report == BuildReport(fs, target, scanDate)
  {
    var counts := CountSeverities(fs);
    var weight := counts.critical * 10 + counts.high * 5 + counts.medium * 2 + counts.low * 1;
    var score := 100 - weight;
    if score > 100 {
      score := 100;
    }
    if score < 0 {
      score := 0;
    }
    var cleaned := CleanFindings(fs);
    var recommendations := GenerateRecommendations(fs);
    report := Report(Summary(|fs|, score, counts, scanDate, target), cleaned, recommendations, true);
  }
}
