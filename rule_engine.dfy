/**
 * The rule engine (`_static_analysis`, `_get_severity`, `_get_description`).
 *
 * The pattern texts are kept as written; what it means for a pattern to
 * match a line (`re.search(pattern, line, re.IGNORECASE)`) is the parameter
 * `search`, so every property below holds whatever the regular expressions do.
 */
module RuleEngine {
  import opened Wrappers
  import opened Text
  import opened ScanModel

  /** The pattern table: for each kind, in this order, its patterns. */
  const Rules: seq<(string, seq<string>)> := [
    ("sql_injection", [
      @"execute\s*\(\s*[""\'].*\%.*[""\']",
      @"query\s*\(\s*[""\'].*\+.*[""\']",
      @"WHERE.*=.*\+"]),
    ("xss", [
      @"innerHTML\s*=.*\+",
      @"document\.write\s*\(.*\+",
      @"eval\s*\("]),
    ("hardcoded_secrets", [
      @"password\s*=\s*[""\'][^""\']{8,}[""\']",
      @"api_key\s*=\s*[""\'][^""\']{10,}[""\']",
      @"secret\s*=\s*[""\'][^""\']{8,}[""\']"]),
    ("insecure_crypto", [
      @"md5\s*\(",
      @"sha1\s*\(",
      @"DES\s*\("])
  ]

  const RuleKinds: set<string> := {"sql_injection", "xss", "hardcoded_secrets", "insecure_crypto"}

  const Severities: set<string> := {"critical", "high", "medium", "low"}

  /** `_get_severity`: the fixed kind-to-severity table, 'low' for any other kind. */
  function SeverityOf(kind: string): string {
    match kind
    case "sql_injection" => "critical"
    case "xss" => "high"
    case "hardcoded_secrets" => "high"
    case "insecure_crypto" => "medium"
    case "vulnerable_dependency" => "medium"
    case _ => "low"
  }

  /** `_get_description`: the fixed kind-to-description table, a generic text for any other kind. */
  function DescriptionOf(kind: string): string {
    match kind
    case "sql_injection" => "Injection SQL potentielle détectée"
    case "xss" => "Vulnérabilité XSS potentielle détectée"
    case "hardcoded_secrets" => "Secret en dur détecté dans le code"
    case "insecure_crypto" => "Algorithme de chiffrement non sécurisé"
    case "vulnerable_dependency" => "Dépendance avec vulnérabilités connues"
    case _ => "Vulnérabilité détectée"
  }

  /**
   * Every kind gets one of the four severities and a non-empty description;
   * a kind outside the table falls back to 'low' and the generic text.
   */
  lemma KindTables(kind: string)
    ensures SeverityOf(kind) in Severities
    ensures DescriptionOf(kind) != []
    ensures kind !in RuleKinds + {"vulnerable_dependency"} ==> SeverityOf(kind) == "low"
    ensures kind !in RuleKinds + {"vulnerable_dependency"} ==> DescriptionOf(kind) == "Vulnérabilité détectée"
  {
  }

  /** The finding recorded when line `n` (1-based) of `file` matches a pattern of `kind`. */
  function Hit(kind: string, file: string, n: int, line: string): Finding {
    Finding(Some(kind), Some(SeverityOf(kind)), Some(DescriptionOf(kind)), None, Some(file), Some(n),
            Some(Strip(line)), None, None, None)
  }

  /** Findings of one pattern over the first `n` lines. */
  function LineHits(kind: string, pattern: string, file: string, lines: seq<string>, n: nat,
                    search: (string, string) -> bool): seq<Finding>
    requires n <= |lines|
  {
    if n == 0 then []
    else LineHits(kind, pattern, file, lines, n - 1, search)
         + (if search(pattern, lines[n - 1]) then [Hit(kind, file, n, lines[n - 1])] else [])
  }

  /** Findings of the first `k` patterns of one kind over all lines. */
  function PatternHits(kind: string, patterns: seq<string>, k: nat, file: string, lines: seq<string>,
                       search: (string, string) -> bool): seq<Finding>
    requires k <= |patterns|
  {
    if k == 0 then []
    else PatternHits(kind, patterns, k - 1, file, lines, search)
         + LineHits(kind, patterns[k - 1], file, lines, |lines|, search)
  }

  /** Findings of the first `k` kinds of a rule table. */
  function RuleHits(rules: seq<(string, seq<string>)>, k: nat, file: string, lines: seq<string>,
                    search: (string, string) -> bool): seq<Finding>
    requires k <= |rules|
  {
    if k == 0 then []
    else RuleHits(rules, k - 1, file, lines, search)
         + PatternHits(rules[k - 1].0, rules[k - 1].1, |rules[k - 1].1|, file, lines, search)
  }

  /** Everything the rule engine reports for `content`: kind by kind, pattern by pattern, line by line. */
  function StaticFindings(file: string, content: string, search: (string, string) -> bool): seq<Finding> {
    RuleHits(Rules, |Rules|, file, SplitOn(content, "\n"), search)
  }

  /** Pattern `q` of kind `j` of a rule table matches the line at index `i` (line number `i + 1`). */
  predicate Fired(rules: seq<(string, seq<string>)>, lines: seq<string>, search: (string, string) -> bool,
                  j: int, q: int, i: int) {
    0 <= j < |rules| && 0 <= q < |rules[j].1| && 0 <= i < |lines| && search(rules[j].1[q], lines[i])
  }

  /** Indices, in increasing order, of the first `n` lines that `pattern` matches. */
  function Matches(pattern: string, lines: seq<string>, n: nat, search: (string, string) -> bool): seq<nat>
    requires n <= |lines|
  {
    if n == 0 then []
    else Matches(pattern, lines, n - 1, search) + (if search(pattern, lines[n - 1]) then [n - 1] else [])
  }

  /** Line indices `idx` with the pattern index `q` in front. */
  function WithPattern(q: nat, idx: seq<nat>): seq<(nat, nat)>
  {
    seq(|idx|, t requires 0 <= t < |idx| => (q, idx[t]))
  }

  /** (pattern, line) positions of the matches of the first `k` patterns, pattern by pattern. */
  function PatternMatches(patterns: seq<string>, k: nat, lines: seq<string>, search: (string, string) -> bool)
    : seq<(nat, nat)>
    requires k <= |patterns|
  {
    if k == 0 then []
    else PatternMatches(patterns, k - 1, lines, search) + WithPattern(k - 1, Matches(patterns[k - 1], lines, |lines|, search))
  }

  /** (pattern, line) positions `pos` with the kind index `j` in front. */
  function WithKind(j: nat, pos: seq<(nat, nat)>): seq<(nat, nat, nat)>
  {
    seq(|pos|, t requires 0 <= t < |pos| => (j, pos[t].0, pos[t].1))
  }

  /** (kind, pattern, line) positions of the matches of the first `k` kinds, kind by kind. */
  function RuleMatches(rules: seq<(string, seq<string>)>, k: nat, lines: seq<string>, search: (string, string) -> bool)
    : seq<(nat, nat, nat)>
    requires k <= |rules|
  {
    if k == 0 then []
    else RuleMatches(rules, k - 1, lines, search) + WithKind(k - 1, PatternMatches(rules[k - 1].1, |rules[k - 1].1|, lines, search))
  }

  /** Position `x` of a match comes strictly before `y`: by kind, then pattern, then line. */
  predicate Before(x: (nat, nat, nat), y: (nat, nat, nat)) {
    x.0 < y.0 || (x.0 == y.0 && (x.1 < y.1 || (x.1 == y.1 && x.2 < y.2)))
  }

  /** Every index in `Matches` is a line index below `n`. */
  lemma {:induction false} MatchesBound(pattern: string, lines: seq<string>, n: nat, search: (string, string) -> bool)
    requires n <= |lines|
    ensures forall t :: 0 <= t < |Matches(pattern, lines, n, search)| ==> Matches(pattern, lines, n, search)[t] < n
  {
    if n > 0 {
      MatchesBound(pattern, lines, n - 1, search);
    }
  }

  /** `Matches` names only lines the pattern matches. */
  lemma {:induction false} MatchesSound(pattern: string, lines: seq<string>, n: nat, search: (string, string) -> bool)
    requires n <= |lines|
    ensures forall t :: 0 <= t < |Matches(pattern, lines, n, search)| ==>
      Matches(pattern, lines, n, search)[t] < n && search(pattern, lines[Matches(pattern, lines, n, search)[t]])
  {
    if n > 0 {
      MatchesSound(pattern, lines, n - 1, search);
    }
  }

  /** `Matches` is strictly increasing, so no line appears twice. */
  lemma {:induction false} MatchesSorted(pattern: string, lines: seq<string>, n: nat, search: (string, string) -> bool)
    requires n <= |lines|
    ensures forall a, b :: 0 <= a < b < |Matches(pattern, lines, n, search)| ==>
      Matches(pattern, lines, n, search)[a] < Matches(pattern, lines, n, search)[b]
  {
    if n > 0 {
      MatchesSorted(pattern, lines, n - 1, search);
      MatchesBound(pattern, lines, n - 1, search);
    }
  }

  /** Positions in `PatternMatches` name one of the first `k` patterns and a line index. */
  lemma {:induction false} PatternMatchesBound(patterns: seq<string>, k: nat, lines: seq<string>,
                                                search: (string, string) -> bool)
    requires k <= |patterns|
    ensures forall t :: 0 <= t < |PatternMatches(patterns, k, lines, search)| ==>
      PatternMatches(patterns, k, lines, search)[t].0 < k && PatternMatches(patterns, k, lines, search)[t].1 < |lines|
  {
    if k > 0 {
      PatternMatchesBound(patterns, k - 1, lines, search);
      MatchesBound(patterns[k - 1], lines, |lines|, search);
      var prev := PatternMatches(patterns, k - 1, lines, search);
      var idx := Matches(patterns[k - 1], lines, |lines|, search);
      var pos := PatternMatches(patterns, k, lines, search);
      assert pos == prev + WithPattern(k - 1, idx);
      forall t | 0 <= t < |pos| ensures pos[t].0 < k && pos[t].1 < |lines| {
        if t < |prev| {
          assert pos[t] == prev[t];
        } else {
          assert pos[t] == (k - 1, idx[t - |prev|]);
        }
      }
    }
  }

  /** `PatternMatches` names only (pattern, line) pairs that match. */
  lemma {:induction false} PatternMatchesSound(patterns: seq<string>, k: nat, lines: seq<string>,
                                                search: (string, string) -> bool)
    requires k <= |patterns|
    ensures forall t :: 0 <= t < |PatternMatches(patterns, k, lines, search)| ==>
      var p := PatternMatches(patterns, k, lines, search)[t];
      p.0 < k && p.1 < |lines| && search(patterns[p.0], lines[p.1])
  {
    if k > 0 {
      PatternMatchesSound(patterns, k - 1, lines, search);
      MatchesSound(patterns[k - 1], lines, |lines|, search);
      var prev := PatternMatches(patterns, k - 1, lines, search);
      var idx := Matches(patterns[k - 1], lines, |lines|, search);
      var pos := PatternMatches(patterns, k, lines, search);
      assert pos == prev + WithPattern(k - 1, idx);
      forall t | 0 <= t < |pos| ensures pos[t].0 < k && pos[t].1 < |lines| && search(patterns[pos[t].0], lines[pos[t].1]) {
        if t < |prev| {
          assert pos[t] == prev[t];
        } else {
          assert pos[t] == (k - 1, idx[t - |prev|]);
        }
      }
    }
  }

  /** `PatternMatches` increases by pattern, then by line, so no pair appears twice. */
  lemma {:induction false} PatternMatchesSorted(patterns: seq<string>, k: nat, lines: seq<string>,
                                                 search: (string, string) -> bool)
    requires k <= |patterns|
    ensures forall a, b :: 0 <= a < b < |PatternMatches(patterns, k, lines, search)| ==>
      var x, y := PatternMatches(patterns, k, lines, search)[a], PatternMatches(patterns, k, lines, search)[b];
      x.0 < y.0 || (x.0 == y.0 && x.1 < y.1)
  {
    if k > 0 {
      PatternMatchesSorted(patterns, k - 1, lines, search);
      PatternMatchesBound(patterns, k - 1, lines, search);
      MatchesSorted(patterns[k - 1], lines, |lines|, search);
      var prev := PatternMatches(patterns, k - 1, lines, search);
      var idx := Matches(patterns[k - 1], lines, |lines|, search);
      var pos := PatternMatches(patterns, k, lines, search);
      assert pos == prev + WithPattern(k - 1, idx);
      forall a, b | 0 <= a < b < |pos| ensures pos[a].0 < pos[b].0 || (pos[a].0 == pos[b].0 && pos[a].1 < pos[b].1) {
        if b < |prev| {
          assert pos[a] == prev[a] && pos[b] == prev[b];
        } else if a < |prev| {
          assert pos[a] == prev[a] && pos[b] == (k - 1, idx[b - |prev|]);
        } else {
          assert pos[a] == (k - 1, idx[a - |prev|]) && pos[b] == (k - 1, idx[b - |prev|]);
        }
      }
    }
  }

  /** Positions in `RuleMatches` name one of the first `k` kinds and a line index. */
  lemma {:induction false} RuleMatchesBound(rules: seq<(string, seq<string>)>, k: nat, lines: seq<string>,
                                             search: (string, string) -> bool)
    requires k <= |rules|
    ensures forall t :: 0 <= t < |RuleMatches(rules, k, lines, search)| ==>
      RuleMatches(rules, k, lines, search)[t].0 < k && RuleMatches(rules, k, lines, search)[t].2 < |lines|
  {
    if k > 0 {
      RuleMatchesBound(rules, k - 1, lines, search);
      PatternMatchesBound(rules[k - 1].1, |rules[k - 1].1|, lines, search);
      var prev := RuleMatches(rules, k - 1, lines, search);
      var inner := PatternMatches(rules[k - 1].1, |rules[k - 1].1|, lines, search);
      var pos := RuleMatches(rules, k, lines, search);
      assert pos == prev + WithKind(k - 1, inner);
      forall t | 0 <= t < |pos| ensures pos[t].0 < k && pos[t].2 < |lines| {
        if t < |prev| {
          assert pos[t] == prev[t];
        } else {
          assert pos[t] == (k - 1, inner[t - |prev|].0, inner[t - |prev|].1);
        }
      }
    }
  }

  /** `RuleMatches` names only triples that fire. */
  lemma {:induction false} RuleMatchesSound(rules: seq<(string, seq<string>)>, k: nat, lines: seq<string>,
                                             search: (string, string) -> bool)
    requires k <= |rules|
    ensures forall t :: 0 <= t < |RuleMatches(rules, k, lines, search)| ==>
      var p := RuleMatches(rules, k, lines, search)[t];
      p.0 < k && Fired(rules, lines, search, p.0, p.1, p.2)
  {
    if k > 0 {
      RuleMatchesSound(rules, k - 1, lines, search);
      PatternMatchesSound(rules[k - 1].1, |rules[k - 1].1|, lines, search);
      var prev := RuleMatches(rules, k - 1, lines, search);
      var inner := PatternMatches(rules[k - 1].1, |rules[k - 1].1|, lines, search);
      var pos := RuleMatches(rules, k, lines, search);
      assert pos == prev + WithKind(k - 1, inner);
      forall t | 0 <= t < |pos| ensures pos[t].0 < k && Fired(rules, lines, search, pos[t].0, pos[t].1, pos[t].2) {
        if t < |prev| {
          assert pos[t] == prev[t];
        } else {
          assert pos[t] == (k - 1, inner[t - |prev|].0, inner[t - |prev|].1);
        }
      }
    }
  }

  /** `RuleMatches` increases in (kind, pattern, line) order, so no triple appears twice. */
  lemma {:induction false} RuleMatchesSorted(rules: seq<(string, seq<string>)>, k: nat, lines: seq<string>,
                                              search: (string, string) -> bool)
    requires k <= |rules|
    ensures forall a, b :: 0 <= a < b < |RuleMatches(rules, k, lines, search)| ==>
      Before(RuleMatches(rules, k, lines, search)[a], RuleMatches(rules, k, lines, search)[b])
  {
    if k > 0 {
      RuleMatchesSorted(rules, k - 1, lines, search);
      RuleMatchesBound(rules, k - 1, lines, search);
      PatternMatchesSorted(rules[k - 1].1, |rules[k - 1].1|, lines, search);
      var prev := RuleMatches(rules, k - 1, lines, search);
      var inner := PatternMatches(rules[k - 1].1, |rules[k - 1].1|, lines, search);
      var pos := RuleMatches(rules, k, lines, search);
      assert pos == prev + WithKind(k - 1, inner);
      forall a, b | 0 <= a < b < |pos| ensures Before(pos[a], pos[b]) {
        if b < |prev| {
          assert pos[a] == prev[a] && pos[b] == prev[b];
        } else if a < |prev| {
          assert pos[a] == prev[a] && pos[b].0 == k - 1;
        } else {
          assert pos[a] == (k - 1, inner[a - |prev|].0, inner[a - |prev|].1);
          assert pos[b] == (k - 1, inner[b - |prev|].0, inner[b - |prev|].1);
        }
      }
    }
  }

  /** A line among the first `n` that the pattern matches appears in `Matches`, at index `t`. */
  lemma {:induction false} MatchesIndex(pattern: string, lines: seq<string>, n: nat, search: (string, string) -> bool,
                                         i: nat) returns (t: nat)
    requires n <= |lines| && i < n && search(pattern, lines[i])
    ensures t < |Matches(pattern, lines, n, search)| && Matches(pattern, lines, n, search)[t] == i
  {
    var prev := Matches(pattern, lines, n - 1, search);
    if i < n - 1 {
      t := MatchesIndex(pattern, lines, n - 1, search, i);
      assert Matches(pattern, lines, n, search)[t] == prev[t];
    } else {
      t := |prev|;
    }
  }

  /** A matching pair of the first `k` patterns appears in `PatternMatches`, at index `t`. */
  lemma {:induction false} PatternMatchesIndex(patterns: seq<string>, k: nat, lines: seq<string>,
                                                search: (string, string) -> bool, q: nat, i: nat) returns (t: nat)
    requires k <= |patterns| && q < k && i < |lines| && search(patterns[q], lines[i])
    ensures t < |PatternMatches(patterns, k, lines, search)| && PatternMatches(patterns, k, lines, search)[t] == (q, i)
  {
    var prev := PatternMatches(patterns, k - 1, lines, search);
    var idx := Matches(patterns[k - 1], lines, |lines|, search);
    assert PatternMatches(patterns, k, lines, search) == prev + WithPattern(k - 1, idx);
    if q < k - 1 {
      t := PatternMatchesIndex(patterns, k - 1, lines, search, q, i);
      assert PatternMatches(patterns, k, lines, search)[t] == prev[t];
    } else {
      var within := MatchesIndex(patterns[k - 1], lines, |lines|, search, i);
      t := |prev| + within;
      assert PatternMatches(patterns, k, lines, search)[t] == WithPattern(k - 1, idx)[within] == (k - 1, idx[within]);
    }
  }

  /** A triple that fires among the first `k` kinds appears in `RuleMatches`, at index `t`. */
  lemma {:induction false} RuleMatchesIndex(rules: seq<(string, seq<string>)>, k: nat, lines: seq<string>,
                                             search: (string, string) -> bool, j: nat, q: nat, i: nat) returns (t: nat)
    requires k <= |rules| && j < k && Fired(rules, lines, search, j, q, i)
    ensures t < |RuleMatches(rules, k, lines, search)| && RuleMatches(rules, k, lines, search)[t] == (j, q, i)
  {
    var prev := RuleMatches(rules, k - 1, lines, search);
    var inner := PatternMatches(rules[k - 1].1, |rules[k - 1].1|, lines, search);
    assert RuleMatches(rules, k, lines, search) == prev + WithKind(k - 1, inner);
    if j < k - 1 {
      t := RuleMatchesIndex(rules, k - 1, lines, search, j, q, i);
      assert RuleMatches(rules, k, lines, search)[t] == prev[t];
    } else {
      var within := PatternMatchesIndex(rules[k - 1].1, |rules[k - 1].1|, lines, search, q, i);
      t := |prev| + within;
      assert RuleMatches(rules, k, lines, search)[t] == WithKind(k - 1, inner)[within] == (k - 1, q, i);
    }
  }

  /** The line indices of (pattern, line) positions. */
  function LinesOf(pos: seq<(nat, nat)>): seq<nat>
  {
    seq(|pos|, t requires 0 <= t < |pos| => pos[t].1)
  }

  /** The hits of `kind` at line indices `idx`. */
  function HitsAt(kind: string, file: string, lines: seq<string>, idx: seq<nat>): seq<Finding>
    requires forall t :: 0 <= t < |idx| ==> idx[t] < |lines|
  {
    seq(|idx|, t requires 0 <= t < |idx| => Hit(kind, file, idx[t] + 1, lines[idx[t]]))
  }

  /** Hits at a concatenation of index lists are the hits of each list. */
  lemma HitsAppend(kind: string, file: string, lines: seq<string>, idx: seq<nat>, more: seq<nat>)
    requires forall t :: 0 <= t < |idx| ==> idx[t] < |lines|
    requires forall t :: 0 <= t < |more| ==> more[t] < |lines|
    ensures forall t :: 0 <= t < |idx + more| ==> (idx + more)[t] < |lines|
    ensures HitsAt(kind, file, lines, idx + more) == HitsAt(kind, file, lines, idx) + HitsAt(kind, file, lines, more)
  {
    var l := HitsAt(kind, file, lines, idx + more);
    var r := HitsAt(kind, file, lines, idx) + HitsAt(kind, file, lines, more);
    forall t | 0 <= t < |l| ensures l[t] == r[t] {
      if t < |idx| {
        assert (idx + more)[t] == idx[t];
      } else {
        assert (idx + more)[t] == more[t - |idx|];
      }
    }
  }

  /** The inner loop finds the hits at `Matches`. */
  lemma {:induction false} LineHitsMatches(kind: string, pattern: string, file: string, lines: seq<string>, n: nat,
                                            search: (string, string) -> bool)
    requires n <= |lines|
    ensures forall t :: 0 <= t < |Matches(pattern, lines, n, search)| ==> Matches(pattern, lines, n, search)[t] < |lines|
    ensures LineHits(kind, pattern, file, lines, n, search) == HitsAt(kind, file, lines, Matches(pattern, lines, n, search))
  {
    MatchesBound(pattern, lines, n, search);
    if n > 0 {
      LineHitsMatches(kind, pattern, file, lines, n - 1, search);
      var prev := Matches(pattern, lines, n - 1, search);
      if search(pattern, lines[n - 1]) {
        assert Matches(pattern, lines, n, search) == prev + [n - 1];
        HitsAppend(kind, file, lines, prev, [n - 1]);
        assert HitsAt(kind, file, lines, [n - 1]) == [Hit(kind, file, n, lines[n - 1])];
      } else {
        assert Matches(pattern, lines, n, search) == prev;
      }
    }
  }

  /** The middle loop finds the hits at the line positions of `PatternMatches`. */
  lemma {:induction false} PatternHitsMatches(kind: string, patterns: seq<string>, k: nat, file: string,
                                               lines: seq<string>, search: (string, string) -> bool)
    requires k <= |patterns|
    ensures forall t :: 0 <= t < |PatternMatches(patterns, k, lines, search)| ==>
      PatternMatches(patterns, k, lines, search)[t].1 < |lines|
    ensures PatternHits(kind, patterns, k, file, lines, search)
         == HitsAt(kind, file, lines, LinesOf(PatternMatches(patterns, k, lines, search)))
  {
    PatternMatchesBound(patterns, k, lines, search);
    if k > 0 {
      PatternHitsMatches(kind, patterns, k - 1, file, lines, search);
      LineHitsMatches(kind, patterns[k - 1], file, lines, |lines|, search);
      var prev := PatternMatches(patterns, k - 1, lines, search);
      var idx := Matches(patterns[k - 1], lines, |lines|, search);
      assert PatternMatches(patterns, k, lines, search) == prev + WithPattern(k - 1, idx);
      assert LinesOf(prev + WithPattern(k - 1, idx)) == LinesOf(prev) + idx;
      HitsAppend(kind, file, lines, LinesOf(prev), idx);
    }
  }

  /** The hits at (kind, pattern, line) positions `pos` of a rule table. */
  function FindingsAt(rules: seq<(string, seq<string>)>, file: string, lines: seq<string>, pos: seq<(nat, nat, nat)>)
    : seq<Finding>
    requires forall t :: 0 <= t < |pos| ==> pos[t].0 < |rules| && pos[t].2 < |lines|
  {
    seq(|pos|, t requires 0 <= t < |pos| => Hit(rules[pos[t].0].0, file, pos[t].2 + 1, lines[pos[t].2]))
  }

  /** Adding kind `j`'s positions adds the hits of that kind at their lines. */
  lemma FindingsAppend(rules: seq<(string, seq<string>)>, file: string, lines: seq<string>,
                       pos: seq<(nat, nat, nat)>, j: nat, more: seq<(nat, nat)>)
    requires forall t :: 0 <= t < |pos| ==> pos[t].0 < |rules| && pos[t].2 < |lines|
    requires j < |rules| && forall t :: 0 <= t < |more| ==> more[t].1 < |lines|
    ensures forall t :: 0 <= t < |pos + WithKind(j, more)| ==>
      (pos + WithKind(j, more))[t].0 < |rules| && (pos + WithKind(j, more))[t].2 < |lines|
    ensures FindingsAt(rules, file, lines, pos + WithKind(j, more))
         == FindingsAt(rules, file, lines, pos) + HitsAt(rules[j].0, file, lines, LinesOf(more))
  {
    var all := pos + WithKind(j, more);
    forall t | 0 <= t < |all| ensures all[t].0 < |rules| && all[t].2 < |lines| {
      if t >= |pos| {
        assert all[t] == (j, more[t - |pos|].0, more[t - |pos|].1);
      }
    }
    var l := FindingsAt(rules, file, lines, all);
    var r := FindingsAt(rules, file, lines, pos) + HitsAt(rules[j].0, file, lines, LinesOf(more));
    forall t | 0 <= t < |l| ensures l[t] == r[t] {
      if t < |pos| {
        assert all[t] == pos[t];
      } else {
        assert all[t] == (j, more[t - |pos|].0, more[t - |pos|].1);
      }
    }
  }

  /** The outer loop finds the hits at `RuleMatches`. */
  lemma {:induction false} RuleHitsMatches(rules: seq<(string, seq<string>)>, k: nat, file: string, lines: seq<string>,
                                            search: (string, string) -> bool)
    requires k <= |rules|
    ensures forall t :: 0 <= t < |RuleMatches(rules, k, lines, search)| ==>
      RuleMatches(rules, k, lines, search)[t].0 < |rules| && RuleMatches(rules, k, lines, search)[t].2 < |lines|
    ensures RuleHits(rules, k, file, lines, search) == FindingsAt(rules, file, lines, RuleMatches(rules, k, lines, search))
  {
    RuleMatchesBound(rules, k, lines, search);
    if k > 0 {
      var kind, patterns := rules[k - 1].0, rules[k - 1].1;
      var prev := RuleMatches(rules, k - 1, lines, search);
      var inner := PatternMatches(patterns, |patterns|, lines, search);
      var before := RuleHits(rules, k - 1, file, lines, search);
      var more := PatternHits(kind, patterns, |patterns|, file, lines, search);
      assert RuleMatches(rules, k, lines, search) == prev + WithKind(k - 1, inner);
      assert RuleHits(rules, k, file, lines, search) == before + more;
      PatternMatchesBound(patterns, |patterns|, lines, search);
      RuleMatchesBound(rules, k - 1, lines, search);
      assert before == FindingsAt(rules, file, lines, prev) by {
        RuleHitsMatches(rules, k - 1, file, lines, search);
      }
      assert more == HitsAt(kind, file, lines, LinesOf(inner)) by {
        PatternHitsMatches(kind, patterns, |patterns|, file, lines, search);
      }
      FindingsAppend(rules, file, lines, prev, k - 1, inner);
    }
  }

  /**
   * Over any rule table, `RuleHits` holds one hit per fired (kind, pattern,
   * line) triple, in kind, pattern, line order: it is the hits at positions
   * `pos`, which name only triples that fire, strictly increase, and include
   * every triple that fires.
   */
  lemma RuleHitsOrder(rules: seq<(string, seq<string>)>, file: string, lines: seq<string>,
                      search: (string, string) -> bool) returns (pos: seq<(nat, nat, nat)>)
    ensures forall t :: 0 <= t < |pos| ==> pos[t].0 < |rules| && pos[t].2 < |lines|
    ensures forall t :: 0 <= t < |pos| ==> Fired(rules, lines, search, pos[t].0, pos[t].1, pos[t].2)
    ensures RuleHits(rules, |rules|, file, lines, search) == FindingsAt(rules, file, lines, pos)
    ensures forall a, b :: 0 <= a < b < |pos| ==> Before(pos[a], pos[b])
    ensures forall j, q, i :: Fired(rules, lines, search, j, q, i) ==> (j, q, i) in pos
  {
    pos := RuleMatches(rules, |rules|, lines, search);
    RuleMatchesSound(rules, |rules|, lines, search);
    RuleMatchesSorted(rules, |rules|, lines, search);
    RuleHitsMatches(rules, |rules|, file, lines, search);
    forall j, q, i | Fired(rules, lines, search, j, q, i) ensures (j, q, i) in pos {
      var t := RuleMatchesIndex(rules, |rules|, lines, search, j, q, i);
    }
  }

  /** Each entry of `RuleHits` is the hit of a fired triple. */
  lemma RuleHitsAt(rules: seq<(string, seq<string>)>, file: string, lines: seq<string>,
                   search: (string, string) -> bool, m: nat) returns (j: nat, q: nat, i: nat)
    requires m < |RuleHits(rules, |rules|, file, lines, search)|
    ensures Fired(rules, lines, search, j, q, i)
    ensures RuleHits(rules, |rules|, file, lines, search)[m] == Hit(rules[j].0, file, i + 1, lines[i])
  {
    var pos := RuleHitsOrder(rules, file, lines, search);
    j, q, i := pos[m].0, pos[m].1, pos[m].2;
    assert RuleHits(rules, |rules|, file, lines, search)[m] == FindingsAt(rules, file, lines, pos)[m];
  }

  /**
   * Multiplicity and order: the static findings are exactly one hit per
   * fired (kind, pattern, line) triple, listed kind by kind in table order,
   * pattern by pattern, line by line. They are the hits at positions `pos`,
   * which name only triples that fire, strictly increase, and include every
   * triple that fires.
   */
  lemma StaticFindingsOrder(file: string, content: string, search: (string, string) -> bool)
    returns (pos: seq<(nat, nat, nat)>)
    ensures forall t :: 0 <= t < |pos| ==> pos[t].0 < |Rules| && pos[t].2 < |SplitOn(content, "\n")|
    ensures forall t :: 0 <= t < |pos| ==> Fired(Rules, SplitOn(content, "\n"), search, pos[t].0, pos[t].1, pos[t].2)
    ensures StaticFindings(file, content, search) == FindingsAt(Rules, file, SplitOn(content, "\n"), pos)
    ensures forall a, b :: 0 <= a < b < |pos| ==> Before(pos[a], pos[b])
    ensures forall j, q, i :: Fired(Rules, SplitOn(content, "\n"), search, j, q, i) ==> (j, q, i) in pos
  {
    pos := RuleHitsOrder(Rules, file, SplitOn(content, "\n"), search);
  }

  /**
   * Every static finding is a match: some pattern of its kind matches the
   * line it names, that line lies within `content.split('\n')`, and its
   * severity and description are those of its kind alone.
   */
  lemma StaticFindingsSound(file: string, content: string, search: (string, string) -> bool, f: Finding)
    requires f in StaticFindings(file, content, search)
    ensures exists j, q, i :: Fired(Rules, SplitOn(content, "\n"), search, j, q, i)
                              && f == Hit(Rules[j].0, file, i + 1, SplitOn(content, "\n")[i])
    ensures f.kind.Some? && f.kind.value in RuleKinds
    ensures f.line.Some? && 1 <= f.line.value <= |SplitOn(content, "\n")|
    ensures f.severity == Some(SeverityOf(f.kind.value)) && f.description == Some(DescriptionOf(f.kind.value))
    ensures f.file == Some(file)
  {
    var m :| 0 <= m < |StaticFindings(file, content, search)| && StaticFindings(file, content, search)[m] == f;
    var j, q, i := RuleHitsAt(Rules, file, SplitOn(content, "\n"), search, m);
    RuleKindsListed();
    assert Rules[j].0 in RuleKinds;
  }

  lemma RuleKindsListed()
    ensures forall j :: 0 <= j < |Rules| ==> Rules[j].0 in RuleKinds
  {
  }

  /** Every line that a pattern matches is reported, under that pattern's kind, with its 1-based number. */
  lemma StaticFindingsComplete(file: string, content: string, search: (string, string) -> bool, j: nat, q: nat, i: nat)
    requires Fired(Rules, SplitOn(content, "\n"), search, j, q, i)
    ensures Hit(Rules[j].0, file, i + 1, SplitOn(content, "\n")[i]) in StaticFindings(file, content, search)
  {
    var pos := StaticFindingsOrder(file, content, search);
    var t :| 0 <= t < |pos| && pos[t] == (j, q, i);
    assert StaticFindings(file, content, search)[t] == FindingsAt(Rules, file, SplitOn(content, "\n"), pos)[t];
  }

  /** `_static_analysis`: three nested loops appending one finding per matching (kind, pattern, line). */
  method StaticAnalysis(file: string, content: string, search: (string, string) -> bool)
    returns (findings: seq<Finding>)
    ensures findings == StaticFindings(file, content, search)
  {
    var lines := SplitOn(content, "\n");
    findings := ApplyRules(Rules, file, lines, search);
  }

  /** The loops of `_static_analysis` over a rule table: kinds in table order. */
  method ApplyRules(rules: seq<(string, seq<string>)>, file: string, lines: seq<string>,
                    search: (string, string) -> bool) returns (findings: seq<Finding>)
    ensures findings == RuleHits(rules, |rules|, file, lines, search)
  {
    findings := [];
    for k := 0 to |rules|
      invariant findings == RuleHits(rules, k, file, lines, search)
    {
      var hits := ApplyPatterns(rules[k].0, rules[k].1, file, lines, search);
      findings := findings + hits;
    }
  }

  /** The middle loop: the patterns of one kind, in order. */
  method ApplyPatterns(kind: string, patterns: seq<string>, file: string, lines: seq<string>,
                       search: (string, string) -> bool) returns (findings: seq<Finding>)
    ensures findings == PatternHits(kind, patterns, |patterns|, file, lines, search)
  {
    findings := [];
    for p := 0 to |patterns|
      invariant findings == PatternHits(kind, patterns, p, file, lines, search)
    {
      var hits := ApplyPattern(kind, patterns[p], file, lines, search);
      findings := findings + hits;
    }
  }

  /** The inner loop: one pattern over `enumerate(lines, 1)`. */
  method ApplyPattern(kind: string, pattern: string, file: string, lines: seq<string>,
                      search: (string, string) -> bool) returns (findings: seq<Finding>)
    ensures findings == LineHits(kind, pattern, file, lines, |lines|, search)
  {
    findings := [];
    for n := 1 to |lines| + 1
      invariant findings == LineHits(kind, pattern, file, lines, n - 1, search)
    {
      if search(pattern, lines[n - 1]) {
        findings := findings + [Hit(kind, file, n, lines[n - 1])];
      }
    }
  }
}
