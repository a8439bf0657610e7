/**
 * The text content of the PDF report (`PDFReportGenerator`): truncation of
 * long cells, the score bands behind the status line, the score colour and
 * the closing sentence, the percentage column, the per-severity tables of
 * findings, the pie-chart slices and the generated analysis paragraph.
 * Fonts, sizes, page layout and drawing are not modelled: a table is its
 * rows of cell texts, a paragraph its text.
 */
module PdfReport {
  import opened Wrappers
  import opened Text
  import opened ScanModel
  import opened ReportBuilder

  /** `_truncate_text`: texts longer than `maxLength` keep `maxLength - 3` characters and gain "...". */
  function TruncateText(text: string, maxLength: int): (r: string)
    ensures |text| <= maxLength ==> r == text
    ensures |text| > maxLength >= 3 ==> |r| == maxLength && r == text[..maxLength - 3] + "..."
  {
    if |text| <= maxLength then text else PyTake(text, maxLength - 3) + "..."
  }

  /** `_truncate_path`: paths longer than 30 characters become "..." and their last 27 characters. */
  function TruncatePath(path: string): (r: string)
    ensures |r| <= 30
    ensures |path| <= 30 ==> r == path
    ensures |path| > 30 ==> |r| == 30 && r[..3] == "..." && r[3..] == path[|path| - 27..]
  {
    if |path| <= 30 then path else "..." + PyLast(path, 27)
  }

  /** The four score bands, from best (0) to worst (3): at least 80, 60, 40, or below. */
  function ScoreBand(score: int): (b: nat)
    ensures b < 4
    ensures b == 0 <==> score >= 80
    ensures b <= 1 <==> score >= 60
    ensures b <= 2 <==> score >= 40
  {
    if score >= 80 then 0 else if score >= 60 then 1 else if score >= 40 then 2 else 3
  }

  /** A higher score never falls in a worse band. */
  lemma BandMonotone(s: int, t: int)
    requires s <= t
    ensures ScoreBand(t) <= ScoreBand(s)
  {
  }

  const StatusTexts := ["\U{1F6E1}\U{FE0F} EXCELLENT SECURITY", "\U{26A0}\U{FE0F} GOOD SECURITY",
                        "\U{1F536} POOR SECURITY", "\U{1F6A8} CRITICAL SECURITY ISSUES"]
  const ScoreColors := ["#28A745", "#FFC107", "#FD7E14", "#DC3545"]
  const ClosingTexts := [
    "Overall, the security posture is excellent with minimal risk.",
    "The security posture is generally good but improvements are recommended.",
    "The security posture needs improvement to reduce potential risks.",
    "The security posture requires immediate attention due to significant vulnerabilities."]

  /** `_get_security_status`: the status line follows the score's band. */
  function SecurityStatus(score: int): (r: string)
    ensures r == StatusTexts[ScoreBand(score)]
  {
    if score >= 80 then "\U{1F6E1}\U{FE0F} EXCELLENT SECURITY"
    else if score >= 60 then "\U{26A0}\U{FE0F} GOOD SECURITY"
    else if score >= 40 then "\U{1F536} POOR SECURITY"
    else "\U{1F6A8} CRITICAL SECURITY ISSUES"
  }

  /** `_get_score_color`: the colour of the score and status follows the same band. */
  function ScoreColor(score: int): (r: string)
    ensures r == ScoreColors[ScoreBand(score)]
  {
    if score >= 80 then "#28A745"
    else if score >= 60 then "#FFC107"
    else if score >= 40 then "#FD7E14"
    else "#DC3545"
  }

  /** The last sentence of the analysis paragraph follows the same band again. */
  function ClosingSentence(score: int): (r: string)
    ensures r == ClosingTexts[ScoreBand(score)]
  {
    if score >= 80 then "Overall, the security posture is excellent with minimal risk."
    else if score >= 60 then "The security posture is generally good but improvements are recommended."
    else if score >= 40 then "The security posture needs improvement to reduce potential risks."
    else "The security posture requires immediate attention due to significant vulnerabilities."
  }

  /** `_get_severity_color`: one colour per known severity, grey otherwise. */
  function SeverityColor(severity: string): (r: string)
    ensures severity !in {"critical", "high", "medium", "low"} ==> r == "gray"
  {
    match severity
    case "critical" => "#DC3545"
    case "high" => "#FD7E14"
    case "medium" => "#FFC107"
    case "low" => "#20C997"
    case _ => "gray"
  }

  /** Python's `round(n / d)` on exact rationals: to the nearest integer, halves to even. */
  function RoundHalfEven(n: nat, d: nat): nat
    requires d > 0
  {
    var q := n / d;
    var r := n % d;
    if 2 * r > d then q + 1
    else if 2 * r < d then q
    else if q % 2 == 0 then q else q + 1
  }

  /**
   * `_calculate_percentage`: 0 for an empty total, otherwise the nearest
   * whole percentage, which stays within 100 for a count within the total.
   */
  function CalculatePercentage(count: nat, total: nat): (p: nat)
    ensures total == 0 ==> p == 0
    ensures total > 0 ==> -(total as int) <= 2 * ((100 * count) as int - (p * total) as int) <= total
    ensures count <= total ==> p <= 100
  {
    if total == 0 then 0
    else
      RoundingNearest(100 * count, total);
      RoundHalfEven(100 * count, total)
  }

  /** Rounding `n / d` moves it by at most a half, and keeps it within 100 when `n <= 100 * d`. */
  lemma RoundingNearest(n: nat, d: nat)
    requires d > 0
    ensures -(d as int) <= 2 * (n as int - (RoundHalfEven(n, d) * d) as int) <= d
    ensures n <= 100 * d ==> RoundHalfEven(n, d) <= 100
  {
    var q, r := n / d, n % d;
    assert n == q * d + r && 0 <= r < d;
    NearestStep(n, d, q, r, RoundHalfEven(n, d));
    if n <= 100 * d && q > 100 {
      MulMono(q, 101, d);
    }
  }

  /** The rounding error of `p` for `n == q * d + r`, when `p` is `q` or `q + 1` as the remainder says. */
  lemma NearestStep(n: int, d: int, q: int, r: int, p: int)
    requires d > 0 && n == q * d + r && 0 <= r < d
    requires (2 * r < d ==> p == q) && (2 * r > d ==> p == q + 1) && (p == q || p == q + 1)
    ensures -d <= 2 * (n - p * d) <= d
  {
    if p == q + 1 {
      Distribute(q, 1, d);
    }
  }

  lemma MulMono(a: int, b: int, t: int)
    requires a >= b && t > 0
    ensures a * t >= b * t
  {
    assert a * t - b * t == (a - b) * t;
  }

  lemma Distribute(a: int, b: int, t: int)
    ensures (a + b) * t == a * t + b * t
  {
  }

  /** Four values each rounded to the nearest whole percentage of their sum add up to 100 give or take 2. */
  lemma RoundedSum(t: int, c0: int, c1: int, c2: int, c3: int, p0: int, p1: int, p2: int, p3: int)
    requires t == c0 + c1 + c2 + c3 && t > 0
    requires -t <= 2 * (100 * c0 - p0 * t) <= t && -t <= 2 * (100 * c1 - p1 * t) <= t
    requires -t <= 2 * (100 * c2 - p2 * t) <= t && -t <= 2 * (100 * c3 - p3 * t) <= t
    ensures 98 <= p0 + p1 + p2 + p3 <= 102
  {
    var sum := p0 + p1 + p2 + p3;
    Distribute(p0, p1, t);
    Distribute(p0 + p1, p2, t);
    Distribute(p0 + p1 + p2, p3, t);
    assert -2 * t <= 100 * t - sum * t <= 2 * t;
    if sum > 102 {
      MulMono(sum, 103, t);
    }
    if sum < 98 {
      MulMono(97, sum, t);
    }
  }

  const SeverityLabels := ["Critical", "High", "Medium", "Low"]

  /**
   * The rows of the executive summary's severity table: a header, then one
   * row per severity, most severe first, of its label, its count and its
   * share of `total` as a percentage.
   */
  function SeverityRows(c: Counts, total: nat): (r: seq<seq<string>>)
    ensures |r| == 1 + |SeverityLabels| && r[0] == ["Severity Level", "Count", "Percentage"]
    ensures forall k :: 1 <= k < |r| ==> |r[k]| == 3 && r[k][0] == SeverityLabels[k - 1]
  {
    [["Severity Level", "Count", "Percentage"],
     ["Critical", NatToString(c.critical), NatToString(CalculatePercentage(c.critical, total)) + "%"],
     ["High", NatToString(c.high), NatToString(CalculatePercentage(c.high, total)) + "%"],
     ["Medium", NatToString(c.medium), NatToString(CalculatePercentage(c.medium, total)) + "%"],
     ["Low", NatToString(c.low), NatToString(CalculatePercentage(c.low, total)) + "%"]]
  }

  /**
   * A severity's row reads back as its count and its rounded percentage of
   * `total`, followed by a percent sign.
   */
  lemma SeverityRowRead(c: Counts, total: nat, k: nat)
    requires k < |SeverityLabels|
    ensures var row := SeverityRows(c, total)[k + 1];
      && ParseInt(row[1]) == Some(Breakdown(c)[k])
      && row[2] != [] && row[2][|row[2]| - 1] == '%'
      && ParseInt(row[2][..|row[2]| - 1]) == Some(CalculatePercentage(Breakdown(c)[k], total) as int)
  {
    var n := Breakdown(c)[k];
    var p := CalculatePercentage(n, total);
    var row := SeverityRows(c, total)[k + 1];
    assert row[1] == IntToString(n) && row[2] == IntToString(p) + "%";
    IntRoundTrip(n);
    IntRoundTrip(p);
    assert row[2][..|row[2]| - 1] == IntToString(p);
  }

  /** For a report's own breakdown, the four percentages add up to 100 give or take 2 (one rounding each). */
  lemma PercentagesNearlySum(c: Counts)
    requires Total(c) > 0
    ensures var t := Total(c);
      98 <= CalculatePercentage(c.critical, t) + CalculatePercentage(c.high, t)
            + CalculatePercentage(c.medium, t) + CalculatePercentage(c.low, t) <= 102
  {
    var t := Total(c);
    RoundedSum(t, c.critical, c.high, c.medium, c.low,
               CalculatePercentage(c.critical, t), CalculatePercentage(c.high, t),
               CalculatePercentage(c.medium, t), CalculatePercentage(c.low, t));
  }

  const SeverityOrder := ["critical", "high", "medium", "low"]

  /** `severity_breakdown.get(severity, 0)` for each severity of `SeverityOrder`, in that order. */
  function Breakdown(c: Counts): (r: seq<nat>)
    ensures |r| == |SeverityOrder|
  {
    [c.critical, c.high, c.medium, c.low]
  }

  /** `f"{severity.title()}: {count}"`. */
  function SliceLabel(severity: string, count: nat): string {
    Title(severity) + ": " + NatToString(count)
  }

  /**
   * The pie's data and labels for the first `k` severities, each labelled by
   * `name`: one slice per severity with a positive count.
   */
  function Slices(c: Counts, k: nat, name: (string, nat) -> string): seq<(nat, string)>
    requires k <= |SeverityOrder|
  {
    if k == 0 then []
    else
      var severity := SeverityOrder[k - 1];
      var n := Breakdown(c)[k - 1];
      Slices(c, k - 1, name) + (if n > 0 then [(n, name(severity, n))] else [])
  }

  /** The pie's slices, labelled as the chart labels them. */
  function SlicesUpTo(c: Counts, k: nat): seq<(nat, string)>
    requires k <= |SeverityOrder|
  {
    Slices(c, k, SliceLabel)
  }

  function SliceTotal(slices: seq<(nat, string)>): nat {
    if slices == [] then 0 else SliceTotal(slices[..|slices| - 1]) + slices[|slices| - 1].0
  }

  /** The counts of the first `k` severities, added up. */
  function CountsUpTo(c: Counts, k: nat): nat
    requires k <= |SeverityOrder|
  {
    if k == 0 then 0 else CountsUpTo(c, k - 1) + Breakdown(c)[k - 1]
  }

  lemma SliceTotalSnoc(slices: seq<(nat, string)>, s: (nat, string))
    ensures SliceTotal(slices + [s]) == SliceTotal(slices) + s.0
  {
    assert (slices + [s])[..|slices|] == slices;
  }

  /** Every slice of the first `k` severities is positive, and there is at most one per severity. */
  lemma {:induction false} SlicesPositive(c: Counts, k: nat, name: (string, nat) -> string)
    requires k <= |SeverityOrder|
    ensures forall i :: 0 <= i < |Slices(c, k, name)| ==> Slices(c, k, name)[i].0 > 0
    ensures |Slices(c, k, name)| <= k
  {
    if k > 0 {
      SlicesPositive(c, k - 1, name);
      var n := Breakdown(c)[k - 1];
      if n > 0 {
        PositiveSnoc(Slices(c, k - 1, name), (n, name(SeverityOrder[k - 1], n)));
      }
    }
  }

  lemma PositiveSnoc(slices: seq<(nat, string)>, s: (nat, string))
    requires forall i :: 0 <= i < |slices| ==> slices[i].0 > 0
    requires s.0 > 0
    ensures forall i :: 0 <= i < |slices + [s]| ==> (slices + [s])[i].0 > 0
  {
  }

  /** The slices of the first `k` severities add up to their counts. */
  lemma {:induction false} SlicesTotal(c: Counts, k: nat, name: (string, nat) -> string)
    requires k <= |SeverityOrder|
    ensures SliceTotal(Slices(c, k, name)) == CountsUpTo(c, k)
  {
    if k > 0 {
      SlicesTotal(c, k - 1, name);
      var n := Breakdown(c)[k - 1];
      if n > 0 {
        SliceTotalSnoc(Slices(c, k - 1, name), (n, name(SeverityOrder[k - 1], n)));
      } else {
        assert Slices(c, k, name) == Slices(c, k - 1, name) + [] == Slices(c, k - 1, name);
      }
    }
  }

  /** Positive slices add up to more than zero as soon as there is one. */
  lemma SliceTotalPositive(slices: seq<(nat, string)>)
    requires slices != [] && slices[|slices| - 1].0 > 0
    ensures SliceTotal(slices) > 0
  {
  }

  /**
   * The slices cover the whole breakdown: every slice is positive, their
   * sizes add up to the total, and there are none (so no chart) exactly
   * when nothing was found.
   */
  lemma SlicesCoverBreakdown(c: Counts)
    ensures forall i :: 0 <= i < |SlicesUpTo(c, 4)| ==> SlicesUpTo(c, 4)[i].0 > 0
    ensures SliceTotal(SlicesUpTo(c, 4)) == Total(c)
    ensures |SlicesUpTo(c, 4)| <= 4
    ensures SlicesUpTo(c, 4) == [] <==> Total(c) == 0
  {
    var slices := SlicesUpTo(c, 4);
    SlicesPositive(c, 4, SliceLabel);
    SlicesTotal(c, 4, SliceLabel);
    if slices != [] {
      SliceTotalPositive(slices);
    }
    assert CountsUpTo(c, 1) == c.critical;
    assert CountsUpTo(c, 2) == c.critical + c.high;
    assert CountsUpTo(c, 3) == c.critical + c.high + c.medium;
  }

  /** `data` and `labels` are the two columns of `slices`. */
  predicate Columns(data: seq<nat>, labels: seq<string>, slices: seq<(nat, string)>) {
    |data| == |labels| == |slices| && forall i :: 0 <= i < |data| ==> (data[i], labels[i]) == slices[i]
  }

  lemma ColumnsSnoc(data: seq<nat>, labels: seq<string>, slices: seq<(nat, string)>, n: nat, tag: string)
    requires Columns(data, labels, slices)
    ensures Columns(data + [n], labels + [tag], slices + [(n, tag)])
  {
  }

  /** `_create_severity_pie_chart`: the loop over the four severities collecting data and labels. */
  method PieSlices(c: Counts) returns (data: seq<nat>, labels: seq<string>)
    ensures Columns(data, labels, SlicesUpTo(c, 4))
  {
    data, labels := [], [];
    for k := 0 to |SeverityOrder|
      invariant Columns(data, labels, Slices(c, k, SliceLabel))
    {
      var severity := SeverityOrder[k];
      var count := Breakdown(c)[k];
      if count > 0 {
        var tag := SliceLabel(severity, count);
        ColumnsSnoc(data, labels, Slices(c, k, SliceLabel), count, tag);
        data := data + [count];
        labels := labels + [tag];
      }
    }
  }

  /** One piece of the story: a heading, a paragraph, a table of cell texts with its header colour, or a spacer. */
  datatype Block = Heading(text: string) | Para(text: string) | Grid(color: string, rows: seq<seq<string>>) | Gap

  const NoneDetected := "\U{2705} No vulnerabilities detected!"

  /** `.replace('_', ' ')`. */
  function Spaced(s: string): (r: string)
    ensures |r| == |s|
    ensures forall i :: 0 <= i < |s| ==> r[i] != '_'
    ensures forall i :: 0 <= i < |s| ==> r[i] == if s[i] == '_' then ' ' else s[i]
  {
    seq(|s|, i requires 0 <= i < |s| => if s[i] == '_' then ' ' else s[i])
  }

  /** The severity a finding is grouped under. */
  function GroupKey(v: Finding): string {
    v.severity.GetOr("low")
  }

  /** The findings grouped under `severity`, in report order. */
  function Group(vulns: seq<Finding>, severity: string): seq<Finding> {
    if vulns == [] then []
    else Group(vulns[..|vulns| - 1], severity) + (if GroupKey(vulns[|vulns| - 1]) == severity then [vulns[|vulns| - 1]] else [])
  }

  /** The findings whose severity is none of the four: they appear in no table. */
  function Unlisted(vulns: seq<Finding>): nat {
    if vulns == [] then 0
    else Unlisted(vulns[..|vulns| - 1]) + (if GroupKey(vulns[|vulns| - 1]) in SeverityOrder then 0 else 1)
  }

  /**
   * The tables agree with the summary's breakdown for critical, high and
   * medium; the low table lacks exactly the findings of unknown severity,
   * which the breakdown counts as low but no table lists.
   */
  lemma {:induction false} GroupsMatchBreakdown(vulns: seq<Finding>)
    ensures |Group(vulns, "critical")| == Tally(vulns).critical
    ensures |Group(vulns, "high")| == Tally(vulns).high
    ensures |Group(vulns, "medium")| == Tally(vulns).medium
    ensures |Group(vulns, "low")| + Unlisted(vulns) == Tally(vulns).low
  {
    if vulns != [] {
      GroupsMatchBreakdown(vulns[..|vulns| - 1]);
    }
  }

  /** The table row of one finding. */
  function Row(v: Finding): (row: seq<string>)
    ensures |row| == 3 && |row[1]| <= 30 && |row[2]| <= 60
  {
    var description := match v.description case Some(d) => d case None => v.message.GetOr("No description");
    [Title(Spaced(v.kind.GetOr("Unknown"))), TruncatePath(v.file.GetOr("N/A")), TruncateText(description, 60)]
  }

  function Rows(vulns: seq<Finding>): (rows: seq<seq<string>>)
    ensures |rows| == |vulns|
    ensures forall i :: 0 <= i < |vulns| ==> rows[i] == Row(vulns[i])
  {
    seq(|vulns|, i requires 0 <= i < |vulns| => Row(vulns[i]))
  }

  const Header := ["Type", "File", "Description"]

  /** The heading, table and spacer of one severity, or nothing when no finding has it. */
  function SeverityBlocks(vulns: seq<Finding>, severity: string): seq<Block> {
    var g := Group(vulns, severity);
    if g == [] then []
    else [Heading(Upper(severity) + " Severity (" + NatToString(|g|) + " issues)"),
          Grid(SeverityColor(severity), [Header] + Rows(g)), Gap]
  }

  function BlocksUpTo(vulns: seq<Finding>, k: nat): seq<Block>
    requires k <= |SeverityOrder|
  {
    if k == 0 then [] else BlocksUpTo(vulns, k - 1) + SeverityBlocks(vulns, SeverityOrder[k - 1])
  }

  /** `_create_vulnerabilities_section`. */
  function VulnerabilitiesSection(vulns: seq<Finding>): seq<Block> {
    [Heading("Detailed Vulnerabilities")] + if vulns == [] then [Para(NoneDetected)] else BlocksUpTo(vulns, 4)
  }

  /** The table rows of a group, one per finding. */
  method GroupRows(group: seq<Finding>) returns (rows: seq<seq<string>>)
    ensures rows == [Header] + Rows(group)
  {
    rows := [Header];
    for i := 0 to |group|
      invariant rows == [Header] + Rows(group[..i])
    {
      rows := rows + [Row(group[i])];
    }
    assert group[..|group|] == group;
  }

  /** The grouping loop: a dict from severity to the findings that have it, in order. */
  method GroupBySeverity(vulns: seq<Finding>) returns (grouped: map<string, seq<Finding>>)
    ensures forall s :: s in grouped <==> Group(vulns, s) != []
    ensures forall s :: s in grouped ==> grouped[s] == Group(vulns, s)
  {
    grouped := map[];
    for i := 0 to |vulns|
      invariant forall s :: s in grouped <==> Group(vulns[..i], s) != []
      invariant forall s :: s in grouped ==> grouped[s] == Group(vulns[..i], s)
    {
      var severity := vulns[i].severity.GetOr("low");
      if severity !in grouped {
        grouped := grouped[severity := []];
      }
      grouped := grouped[severity := grouped[severity] + [vulns[i]]];
      assert vulns[..i + 1][..i] == vulns[..i];
    }
    assert vulns[..|vulns|] == vulns;
  }

  /** The body of the loop over the severities: nothing when the dict has no such key. */
  method SeverityPart(vulns: seq<Finding>, grouped: map<string, seq<Finding>>, severity: string)
    returns (blocks: seq<Block>)
    requires forall s :: s in grouped <==> Group(vulns, s) != []
    requires forall s :: s in grouped ==> grouped[s] == Group(vulns, s)
    ensures blocks == SeverityBlocks(vulns, severity)
  {
    if severity !in grouped {
      return [];
    }
    var title := Upper(severity) + " Severity (" + NatToString(|grouped[severity]|) + " issues)";
    var rows := GroupRows(grouped[severity]);
    blocks := [Heading(title), Grid(SeverityColor(severity), rows), Gap];
  }

  lemma BlocksStep(vulns: seq<Finding>, k: nat, blocks: seq<Block>)
    requires k < |SeverityOrder| && blocks == SeverityBlocks(vulns, SeverityOrder[k])
    ensures BlocksUpTo(vulns, k + 1) == BlocksUpTo(vulns, k) + blocks
  {
  }

  /** `_create_vulnerabilities_section`: grouping, then one heading and table per severity in order. */
  method CreateVulnerabilitiesSection(vulns: seq<Finding>) returns (story: seq<Block>)
    ensures story == VulnerabilitiesSection(vulns)
  {
    story := [Heading("Detailed Vulnerabilities")];
    if vulns == [] {
      story := story + [Para(NoneDetected)];
      return;
    }
    var grouped := GroupBySeverity(vulns);
    for k := 0 to |SeverityOrder|
      invariant story == [Heading("Detailed Vulnerabilities")] + BlocksUpTo(vulns, k)
    {
      var blocks := SeverityPart(vulns, grouped, SeverityOrder[k]);
      BlocksStep(vulns, k, blocks);
      Associate([Heading("Detailed Vulnerabilities")], BlocksUpTo(vulns, k), blocks);
      story := story + blocks;
    }
  }

  const AnalysisLead := "This security analysis "

  const NoFindingsRest := "found " + "no vulnerabilities in the scanned code. The target appears to follow security best practices and shows no immediate security concerns."
  const NoFindingsText := AnalysisLead + NoFindingsRest

  /** `'s' if n > 1 else ''`. */
  function PluralS(n: int): string {
    if n > 1 then "s" else ""
  }

  function Verb(critical: int): string {
    if critical > 1 then "are" else "is"
  }

  /** The critical-findings sentence as the report writes it: the noun's ending is appended to the full singular. */
  function CriticalSentenceAsWritten(critical: int): string {
    "There " + Verb(critical) + " " + IntToString(critical) + " critical "
    + ("vulnerability" + (if critical > 1 then "ies" else "y")) + " that require immediate attention. "
  }

  /** The sentence as written never spells the noun right: "vulnerabilityy" for one, "vulnerabilityies" for more. */
  lemma CriticalSentenceMisspelt(critical: int)
    ensures critical > 1 ==> Contains(CriticalSentenceAsWritten(critical), "vulnerabilityies")
    ensures critical <= 1 ==> Contains(CriticalSentenceAsWritten(critical), "vulnerabilityy")
  {
    var head := "There " + Verb(critical) + " " + IntToString(critical) + " critical ";
    var w := "vulnerability" + (if critical > 1 then "ies" else "y");
    ContainsMiddle(head, w, " that require immediate attention. ");
    assert "vulnerability" + "ies" == "vulnerabilityies";
    assert "vulnerability" + "y" == "vulnerabilityy";
  }

  /** The noun the sentence means: singular for one finding, plural for more. */
  function CriticalNoun(critical: int): string {
    if critical > 1 then "vulnerabilities" else "vulnerability"
  }

  /** The critical-findings sentence with the noun spelt as intended, agreeing with its verb. */
  function CriticalSentence(critical: int): (r: string)
    ensures Contains(r, Verb(critical) + " " + IntToString(critical) + " critical " + CriticalNoun(critical))
    ensures critical > 1 ==> Verb(critical) == "are" && CriticalNoun(critical) == "vulnerabilities"
    ensures critical <= 1 ==> Verb(critical) == "is" && CriticalNoun(critical) == "vulnerability"
  {
    var phrase := Verb(critical) + " " + IntToString(critical) + " critical " + CriticalNoun(critical);
    ContainsMiddle("There ", phrase, " that require immediate attention. ");
    "There " + phrase + " that require immediate attention. "
  }

  /** Where a text framed by `lead`, `rest` and `closing` starts and ends. */
  lemma Framed(lead: string, rest: string, middle: string, closing: string)
    ensures StartsWith(lead + rest + middle + closing, lead + rest)
    ensures StartsWith(lead + rest + middle + closing, lead)
    ensures EndsWith(lead + rest + middle + closing, closing)
  {
    Affixes(lead + rest + middle, closing);
    Associate(lead + rest, middle, closing);
    Affixes(lead + rest, middle + closing);
    Affixes(lead, rest);
    PrefixTrans(lead + rest + middle + closing, lead + rest, lead);
  }

  /** A text that goes on with "identified" is not the no-findings text. */
  lemma NotNoFindings(r: string)
    requires StartsWith(r, AnalysisLead + "identified ")
    ensures r != NoFindingsText
  {
    var lead := AnalysisLead + "identified ";
    assert r[|AnalysisLead|] == r[..|lead|][|AnalysisLead|] == lead[|AnalysisLead|] == 'i';
    assert NoFindingsText[|AnalysisLead|] == NoFindingsRest[0] == 'f';
  }

  /** The opening words of a report with findings. */
  function Opening(total: int): string {
    IntToString(total) + " potential security issue"
  }

  /** The score sentence, after the plural ending of the opening. */
  function ScoreSentence(total: int, score: int): string {
    PluralS(total) + " " + "resulting in a security score of " + IntToString(score) + "/100. "
  }

  /** The high-severity sentence. */
  function HighSentence(high: int): string {
    "Additionally, " + IntToString(high) + " high-severity issue" + PluralS(high) + " should be addressed as soon as possible. "
  }

  /** The score sentence and the optional critical and high sentences. */
  function Middle(total: int, score: int, critical: int, high: int): string {
    ScoreSentence(total, score)
    + (if critical > 0 then CriticalSentence(critical) else "")
    + (if high > 0 then HighSentence(high) else "")
  }

  /** `_generate_analysis_text` on the summary's total, score and critical and high counts. */
  function AnalysisText(total: int, score: int, critical: int, high: int): (r: string)
    ensures total == 0 <==> r == NoFindingsText
    ensures total != 0 ==>
      (EndsWith(r, ClosingSentence(score))
       && StartsWith(r, AnalysisLead + "identified " + Opening(total)))
  {
    if total == 0 then NoFindingsText
    else
      var lead := AnalysisLead + "identified ";
      Framed(lead, Opening(total), Middle(total, score, critical, high), ClosingSentence(score));
      NotNoFindings(lead + Opening(total) + Middle(total, score, critical, high) + ClosingSentence(score));
      lead + Opening(total) + Middle(total, score, critical, high) + ClosingSentence(score)
  }

  /**
   * A paragraph with findings states the score, mentions the critical
   * findings when there are any and the high-severity ones when there are any.
   */
  lemma AnalysisMentions(total: int, score: int, critical: int, high: int)
    requires total != 0
    ensures Contains(AnalysisText(total, score, critical, high), ScoreSentence(total, score))
    ensures critical > 0 ==> Contains(AnalysisText(total, score, critical, high), CriticalSentence(critical))
    ensures high > 0 ==> Contains(AnalysisText(total, score, critical, high), HighSentence(high))
  {
    var lead := AnalysisLead + "identified " + Opening(total);
    var s := ScoreSentence(total, score);
    var c := if critical > 0 then CriticalSentence(critical) else "";
    var h := if high > 0 then HighSentence(high) else "";
    var closing := ClosingSentence(score);
    var r := AnalysisText(total, score, critical, high);
    assert r == lead + (s + c + h) + closing;
    ContainsParts(lead, s, c, h, closing);
  }

  /** The middle sentences as the report writes them, with the misspelt critical sentence. */
  function MiddleAsWritten(total: int, score: int, critical: int, high: int): string {
    ScoreSentence(total, score)
    + (if critical > 0 then CriticalSentenceAsWritten(critical) else "")
    + (if high > 0 then HighSentence(high) else "")
  }

  /** `_generate_analysis_text` exactly as written: only its critical sentence differs from `AnalysisText`. */
  function AnalysisTextAsWritten(total: int, score: int, critical: int, high: int): (r: string)
    ensures total == 0 <==> r == NoFindingsText
  {
    if total == 0 then NoFindingsText
    else
      var lead := AnalysisLead + "identified ";
      Framed(lead, Opening(total), MiddleAsWritten(total, score, critical, high), ClosingSentence(score));
      NotNoFindings(lead + Opening(total) + MiddleAsWritten(total, score, critical, high) + ClosingSentence(score));
      lead + Opening(total) + MiddleAsWritten(total, score, critical, high) + ClosingSentence(score)
  }

  /** Without a critical finding, the paragraph as written is the intended one. */
  lemma AnalysisAsWrittenAgrees(total: int, score: int, critical: int, high: int)
    requires critical <= 0
    ensures AnalysisTextAsWritten(total, score, critical, high) == AnalysisText(total, score, critical, high)
  {
    assert MiddleAsWritten(total, score, critical, high) == Middle(total, score, critical, high);
  }

  /** With a critical finding, the paragraph as written carries the misspelt sentence. */
  lemma AnalysisAsWrittenMisspelt(total: int, score: int, critical: int, high: int)
    requires total != 0 && critical > 0
    ensures Contains(AnalysisTextAsWritten(total, score, critical, high), CriticalSentenceAsWritten(critical))
  {
    var lead := AnalysisLead + "identified " + Opening(total);
    var s := ScoreSentence(total, score);
    var c := CriticalSentenceAsWritten(critical);
    var h := if high > 0 then HighSentence(high) else "";
    var closing := ClosingSentence(score);
    assert AnalysisTextAsWritten(total, score, critical, high) == lead + (s + c + h) + closing;
    ContainsParts(lead, s, c, h, closing);
  }
}
