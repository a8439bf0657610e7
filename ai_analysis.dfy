/**
 * The language-model half of the analysis (`_ai_analysis`,
 * `_parse_ai_response`): the code sent to the model is cut down to a small
 * payload, and the model's free-text reply is parsed into findings.
 *
 * The model itself is a parameter `llm` from (code, file name) to its reply,
 * `None` standing for a call that raises.
 */
module AiAnalysis {
  import opened Wrappers
  import opened Text
  import opened ScanModel

  const TruncationMarker := "\n... (truncated for analysis)"
  const Sentinel := "NO_VULNERABILITIES_FOUND"
  const Separator := "---"

  /** `min(1000, max_file_size // 4)`: the most characters of code the model is sent. */
  function PayloadLimit(maxFileSize: int): int {
    var quarter := maxFileSize / 4;
    if quarter < 1000 then quarter else 1000
  }

  /**
   * The code sent to the model: the content itself when it fits the limit,
   * otherwise its first characters followed by a truncation notice. Whatever
   * the file's size, the payload stays within a thousand characters and the
   * notice when the configured maximum is not negative.
   */
  function AnalysisPayload(content: string, maxFileSize: int): (r: string)
    ensures |content| <= PayloadLimit(maxFileSize) ==> r == content
    ensures 0 <= PayloadLimit(maxFileSize) < |content| ==>
      r == content[..PayloadLimit(maxFileSize)] + TruncationMarker
    ensures maxFileSize >= 0 ==> |r| <= 1000 + |TruncationMarker|
  {
    var limit := PayloadLimit(maxFileSize);
    if |content| > limit then PyTake(content, limit) + TruncationMarker else content
  }

  /** The text after a `LABEL:` prefix: every occurrence of the tag removed, then stripped. */
  function FieldValue(line: string, tag: string): string
    requires tag != []
  {
    Strip(RemoveAll(line, tag))
  }

  /** When the tag does not occur again, the value is just the stripped rest of the line. */
  lemma FieldValueAfterLabel(line: string, tag: string)
    requires tag != [] && StartsWith(line, tag)
    requires !Contains(line[|tag|..], tag)
    ensures FieldValue(line, tag) == Strip(line[|tag|..])
  {
    RemoveAbsent(line[|tag|..], tag);
  }

  /** The parser's state: the records emitted so far and the one being assembled. */
  datatype ParseState = ParseState(emitted: seq<Finding>, current: Finding)

  const Start := ParseState([], NoFields)

  /** One line of the reply applied to the parser's state. */
  function Step(st: ParseState, raw: string, file: string): ParseState {
    var line := Strip(raw);
    if StartsWith(line, "TYPE:") then
      st.(current := st.current.(kind := Some(FieldValue(line, "TYPE:"))))
    else if StartsWith(line, "SEVERITY:") then
      st.(current := st.current.(severity := Some(Lower(FieldValue(line, "SEVERITY:")))))
    else if StartsWith(line, "DESCRIPTION:") then
      st.(current := st.current.(description := Some(FieldValue(line, "DESCRIPTION:"))))
    else if StartsWith(line, "LINE:") then
      match ParseInt(FieldValue(line, "LINE:"))
      case Some(n) => st.(current := st.current.(line := Some(n)))
      case None => st
    else if line == Separator && st.current != NoFields then
      ParseState(st.emitted + [st.current.(file := Some(file))], NoFields)
    else st
  }

  /** The state after all of `lines`, in order. */
  function Run(st: ParseState, lines: seq<string>, file: string): ParseState
    decreases |lines|
  {
    if lines == [] then st else Run(Step(st, lines[0], file), lines[1..], file)
  }

  /** The records of a finished parse: a last record without separator is kept only if it has a type. */
  function Finish(st: ParseState, file: string): seq<Finding> {
    st.emitted + (if st.current.kind.Some? then [st.current.(file := Some(file))] else [])
  }

  /** The findings `_parse_ai_response` builds from a reply. */
  function ReplyFindings(response: string, file: string): seq<Finding> {
    if Contains(Upper(response), Sentinel) then []
    else Finish(Run(Start, SplitOn(response, "\n"), file), file)
  }


  predicate NoUpper(s: string) {
    forall i :: 0 <= i < |s| ==> !IsUpperAscii(s[i])
  }

  /** A record as the parser assembles it: only the reply's four fields, the severity lower-cased. */
  predicate Assembled(f: Finding) {
    f.message.None? && f.code.None? && f.codeContext.None? && f.package.None? && f.version.None?
    && (f.severity.Some? ==> NoUpper(f.severity.value))
  }

  /** A record the parser emits: assembled, not empty, and carrying the analysed file. */
  predicate Emitted(f: Finding, file: string) {
    Assembled(f) && f.file == Some(file)
    && (f.kind.Some? || f.severity.Some? || f.description.Some? || f.line.Some?)
  }

  predicate Consistent(st: ParseState, file: string) {
    Assembled(st.current) && st.current.file.None?
    && forall f :: f in st.emitted ==> Emitted(f, file)
  }

  lemma LowerHasNoUpper(s: string)
    ensures NoUpper(Lower(s))
  {
  }

  lemma {:induction false} RunConsistent(st: ParseState, lines: seq<string>, file: string)
    requires Consistent(st, file)
    ensures Consistent(Run(st, lines, file), file)
    decreases |lines|
  {
    if lines != [] {
      var line := Strip(lines[0]);
      if StartsWith(line, "SEVERITY:") {
        LowerHasNoUpper(FieldValue(line, "SEVERITY:"));
      }
      RunConsistent(Step(st, lines[0], file), lines[1..], file);
    }
  }

  /**
   * Every finding parsed from a reply carries the analysed file, holds only
   * the type, severity, description and line the reply gave (at least one
   * of them), and has a lower-case severity.
   */
  lemma ReplyFindingsEmitted(response: string, file: string)
    ensures forall f :: f in ReplyFindings(response, file) ==> Emitted(f, file)
  {
    if !Contains(Upper(response), Sentinel) {
      var lines := SplitOn(response, "\n");
      var st := Run(Start, lines, file);
      RunConsistent(Start, lines, file);
      assert ReplyFindings(response, file) == Finish(st, file);
    }
  }

  /**
   * `_ai_analysis`: the model is asked about the payload, and its reply is
   * parsed; a failing call yields nothing, and every finding it yields
   * carries the file and only the fields the reply gave.
   */
  function AiFindings(llm: (string, string) -> Option<string>, content: string, file: string, name: string,
                      maxFileSize: int): (r: seq<Finding>)
    ensures llm(AnalysisPayload(content, maxFileSize), name).None? ==> r == []
    ensures llm(AnalysisPayload(content, maxFileSize), name).Some? ==>
      r == ReplyFindings(llm(AnalysisPayload(content, maxFileSize), name).value, file)
    ensures forall f :: f in r ==> Emitted(f, file)
  {
    match llm(AnalysisPayload(content, maxFileSize), name)
    case None => []
    case Some(reply) =>
      ReplyFindingsEmitted(reply, file);
      ReplyFindings(reply, file)
  }

  /** How many lines of the reply are, once stripped, the separator. */
  function SeparatorCount(lines: seq<string>): nat {
    if lines == [] then 0 else (if Strip(lines[0]) == Separator then 1 else 0) + SeparatorCount(lines[1..])
  }

  /** Only a separator line emits a record, and it emits at most one. */
  lemma StepEmits(st: ParseState, raw: string, file: string)
    ensures Strip(raw) != Separator ==> Step(st, raw, file).emitted == st.emitted
    ensures |Step(st, raw, file).emitted| <= |st.emitted| + 1
  {
    var line := Strip(raw);
    if line == Separator {
      assert !StartsWith(line, "TYPE:") && !StartsWith(line, "SEVERITY:");
      assert !StartsWith(line, "DESCRIPTION:") && !StartsWith(line, "LINE:");
    }
  }

  lemma {:induction false} RunEmitsAtSeparators(st: ParseState, lines: seq<string>, file: string)
    ensures |Run(st, lines, file).emitted| <= |st.emitted| + SeparatorCount(lines)
    ensures SeparatorCount(lines) == 0 ==> Run(st, lines, file).emitted == st.emitted
    decreases |lines|
  {
    if lines != [] {
      StepEmits(st, lines[0], file);
      RunEmitsAtSeparators(Step(st, lines[0], file), lines[1..], file);
    }
  }

  /**
   * A reply yields at most one finding more than it has separator lines;
   * one without any separator yields at most one finding, and that one has a type.
   */
  lemma ReplyFindingsCount(response: string, file: string)
    ensures |ReplyFindings(response, file)| <= SeparatorCount(SplitOn(response, "\n")) + 1
    ensures SeparatorCount(SplitOn(response, "\n")) == 0 ==>
      |ReplyFindings(response, file)| <= 1
      && forall f :: f in ReplyFindings(response, file) ==> f.kind.Some?
  {
    var lines := SplitOn(response, "\n");
    if !Contains(Upper(response), Sentinel) {
      var st := Run(Start, lines, file);
      RunEmitsAtSeparators(Start, lines, file);
      assert ReplyFindings(response, file) == Finish(st, file);
    }
  }

  /**
   * A separator line closes the record being assembled: a non-empty record
   * is emitted exactly as assembled, with the file added, whatever fields it
   * has (with or without a type), and assembly starts again from nothing; an
   * empty record is not emitted.
   */
  lemma StepSeparator(st: ParseState, raw: string, file: string)
    requires Strip(raw) == Separator
    ensures st.current != NoFields ==>
      Step(st, raw, file) == ParseState(st.emitted + [st.current.(file := Some(file))], NoFields)
    ensures st.current == NoFields ==> Step(st, raw, file) == st
  {
    var line := Strip(raw);
    assert !StartsWith(line, "TYPE:") && !StartsWith(line, "SEVERITY:");
    assert !StartsWith(line, "DESCRIPTION:") && !StartsWith(line, "LINE:");
  }

  /** A `LINE:` line whose value `int()` rejects leaves the state as it was. */
  lemma StepBadLine(st: ParseState, raw: string, file: string)
    requires StartsWith(Strip(raw), "LINE:") && ParseInt(FieldValue(Strip(raw), "LINE:")).None?
    ensures Step(st, raw, file) == st
  {
    var line := Strip(raw);
    assert line[0] == 'L';
    assert !StartsWith(line, "TYPE:") && !StartsWith(line, "SEVERITY:") && !StartsWith(line, "DESCRIPTION:");
  }

  /** The state after `a` then `b` is the state after `a + b`. */
  lemma {:induction false} RunAppend(st: ParseState, a: seq<string>, b: seq<string>, file: string)
    ensures Run(st, a + b, file) == Run(Run(st, a, file), b, file)
    decreases |a|
  {
    if a != [] {
      assert (a + b)[0] == a[0] && (a + b)[1..] == a[1..] + b;
      RunAppend(Step(st, a[0], file), a[1..], b, file);
    } else {
      assert a + b == b;
    }
  }

  /** A field value the reply can carry after `tag`: already stripped, on one line, not repeating the tag. */
  predicate Plain(v: string, tag: string)
    requires tag != []
  {
    Strip(v) == v && '\n' !in v && !Contains(v, tag)
  }

  /**
   * A record as the model is asked to write it: some of the type, severity,
   * description and line, with plain values, and nothing else.
   */
  predicate WellFormed(r: Finding) {
    && r.message.None? && r.file.None? && r.code.None? && r.codeContext.None? && r.package.None? && r.version.None?
    && (r.kind.Some? || r.severity.Some? || r.description.Some? || r.line.Some?)
    && (r.kind.Some? ==> Plain(r.kind.value, "TYPE:"))
    && (r.severity.Some? ==> Plain(r.severity.value, "SEVERITY:"))
    && (r.description.Some? ==> Plain(r.description.value, "DESCRIPTION:"))
  }

  /** The line `tag` + value for a field that is present. */
  function FieldLine(tag: string, v: Option<string>): seq<string> {
    if v.Some? then [tag + v.value] else []
  }

  /** The lines a record is written as, without the closing separator. */
  function FieldLines(r: Finding): seq<string> {
    FieldLine("TYPE:", r.kind) + FieldLine("SEVERITY:", r.severity) + FieldLine("DESCRIPTION:", r.description)
    + (if r.line.Some? then ["LINE:" + IntToString(r.line.value)] else [])
  }

  /** The lines of a reply listing `rs`, each record closed by a separator. */
  function ReplyLines(rs: seq<Finding>): seq<string>
    decreases |rs|
  {
    if rs == [] then [] else FieldLines(rs[0]) + [Separator] + ReplyLines(rs[1..])
  }

  /** A reply listing `rs`, one field per line, each record closed by a separator. */
  function Render(rs: seq<Finding>): string {
    Join(ReplyLines(rs), "\n")
  }

  /** A record as the parser reads it back: the severity lower-cased. */
  function ReadBack(r: Finding): Finding {
    r.(severity := if r.severity.Some? then Some(Lower(r.severity.value)) else None)
  }

  /** The findings a reply listing `rs` should give for `file`. */
  function Expected(rs: seq<Finding>, file: string): (fs: seq<Finding>)
    ensures |fs| == |rs|
  {
    seq(|rs|, k requires 0 <= k < |rs| => ReadBack(rs[k]).(file := Some(file)))
  }

  /** A plain value after its tag reads back as itself, and the line is already stripped. */
  lemma Labelled(tag: string, v: string)
    requires tag != [] && !IsSpace(tag[0]) && !IsSpace(tag[|tag| - 1]) && Plain(v, tag)
    ensures Strip(tag + v) == tag + v && StartsWith(tag + v, tag) && FieldValue(tag + v, tag) == v
  {
    var line := tag + v;
    Affixes(tag, v);
    assert line[|tag|..] == v;
    FieldValueAfterLabel(line, tag);
    if v != [] {
      var a, b := StripMeaning(v);
      assert line[|line| - 1] == v[|v| - 1];
    } else {
      assert line == tag;
    }
    StripUnpadded(line);
  }

  /** A stripped line starting with a label updates only the field that label names. */
  lemma StepLabelled(st: ParseState, line: string, file: string)
    requires Strip(line) == line
    ensures StartsWith(line, "TYPE:") ==>
      Step(st, line, file) == st.(current := st.current.(kind := Some(FieldValue(line, "TYPE:"))))
    ensures StartsWith(line, "SEVERITY:") ==>
      Step(st, line, file) == st.(current := st.current.(severity := Some(Lower(FieldValue(line, "SEVERITY:")))))
    ensures StartsWith(line, "DESCRIPTION:") ==>
      Step(st, line, file) == st.(current := st.current.(description := Some(FieldValue(line, "DESCRIPTION:"))))
    ensures StartsWith(line, "LINE:") && ParseInt(FieldValue(line, "LINE:")).Some? ==>
      Step(st, line, file) == st.(current := st.current.(line := ParseInt(FieldValue(line, "LINE:"))))
  {
    if line != [] && line[0] != 'T' {
      assert !StartsWith(line, "TYPE:");
    }
    if line != [] && line[0] != 'S' {
      assert !StartsWith(line, "SEVERITY:");
    }
    if line != [] && line[0] != 'D' {
      assert !StartsWith(line, "DESCRIPTION:");
    }
  }

  /** A `TYPE:` line of a plain value sets the type. */
  lemma StepType(st: ParseState, v: string, file: string)
    requires Plain(v, "TYPE:")
    ensures Step(st, "TYPE:" + v, file) == st.(current := st.current.(kind := Some(v)))
  {
    Labelled("TYPE:", v);
    StepLabelled(st, "TYPE:" + v, file);
  }

  /** A `SEVERITY:` line of a plain value sets the severity, lower-cased. */
  lemma StepSeverity(st: ParseState, v: string, file: string)
    requires Plain(v, "SEVERITY:")
    ensures Step(st, "SEVERITY:" + v, file) == st.(current := st.current.(severity := Some(Lower(v))))
  {
    Labelled("SEVERITY:", v);
    StepLabelled(st, "SEVERITY:" + v, file);
  }

  /** A `DESCRIPTION:` line of a plain value sets the description. */
  lemma StepDescription(st: ParseState, v: string, file: string)
    requires Plain(v, "DESCRIPTION:")
    ensures Step(st, "DESCRIPTION:" + v, file) == st.(current := st.current.(description := Some(v)))
  {
    Labelled("DESCRIPTION:", v);
    StepLabelled(st, "DESCRIPTION:" + v, file);
  }

  /** `str(n)` is a plain value after `LINE:`. */
  lemma NumberPlain(n: int)
    ensures Plain(IntToString(n), "LINE:")
  {
    IntToStringChars(n);
    AbsentFirst(IntToString(n), "LINE:");
  }

  /** A `LINE:` line of a plain value that `int()` reads as `n` sets the line to `n`. */
  lemma StepNumber(st: ParseState, d: string, n: int, file: string)
    requires Plain(d, "LINE:") && ParseInt(d) == Some(n)
    ensures Step(st, "LINE:" + d, file) == st.(current := st.current.(line := Some(n)))
  {
    Labelled("LINE:", d);
    StepLabelled(st, "LINE:" + d, file);
  }

  /** A `LINE:` line holding `str(n)` sets the line to `n`. */
  lemma StepLine(st: ParseState, n: int, file: string)
    ensures Step(st, "LINE:" + IntToString(n), file) == st.(current := st.current.(line := Some(n)))
  {
    NumberPlain(n);
    IntRoundTrip(n);
    StepNumber(st, IntToString(n), n, file);
  }

  /** The field lines of a well-formed record, read from an empty record, assemble it. */
  lemma RunFields(em: seq<Finding>, r: Finding, file: string)
    requires WellFormed(r)
    ensures Run(ParseState(em, NoFields), FieldLines(r), file) == ParseState(em, ReadBack(r))
  {
    var t, sv, d := FieldLine("TYPE:", r.kind), FieldLine("SEVERITY:", r.severity), FieldLine("DESCRIPTION:", r.description);
    var l := if r.line.Some? then ["LINE:" + IntToString(r.line.value)] else [];
    var s0 := ParseState(em, NoFields);
    var s1 := s0.(current := s0.current.(kind := r.kind));
    var s2 := s1.(current := s1.current.(severity := ReadBack(r).severity));
    var s3 := s2.(current := s2.current.(description := r.description));
    var s4 := s3.(current := s3.current.(line := r.line));
    assert Run(s0, t, file) == s1 by {
      if r.kind.Some? {
        StepType(s0, r.kind.value, file);
      }
    }
    assert Run(s1, sv, file) == s2 by {
      if r.severity.Some? {
        StepSeverity(s1, r.severity.value, file);
      }
    }
    assert Run(s2, d, file) == s3 by {
      if r.description.Some? {
        StepDescription(s2, r.description.value, file);
      }
    }
    assert Run(s3, l, file) == s4 by {
      if r.line.Some? {
        StepLine(s3, r.line.value, file);
      }
    }
    RunAppend(s0, t, sv, file);
    RunAppend(s0, t + sv, d, file);
    RunAppend(s0, t + sv + d, l, file);
    assert s4 == ParseState(em, ReadBack(r));
  }

  /** One well-formed record and its separator, read from an empty record, emit it with the file. */
  lemma RunRecord(em: seq<Finding>, r: Finding, tail: seq<string>, file: string)
    requires WellFormed(r)
    ensures Run(ParseState(em, NoFields), FieldLines(r) + ([Separator] + tail), file)
         == Run(ParseState(em + [ReadBack(r).(file := Some(file))], NoFields), tail, file)
  {
    RunAppend(ParseState(em, NoFields), FieldLines(r), [Separator] + tail, file);
    RunFields(em, r, file);
    StepSeparator(ParseState(em, ReadBack(r)), Separator, file);
  }

  lemma ExpectedCons(rs: seq<Finding>, file: string)
    requires rs != []
    ensures Expected(rs, file) == [ReadBack(rs[0]).(file := Some(file))] + Expected(rs[1..], file)
  {
  }

  /** Reading the lines of `rs` and then `more` emits the records of `rs`, each with the file. */
  lemma {:induction false} RunRecords(em: seq<Finding>, rs: seq<Finding>, more: seq<string>, file: string)
    requires forall k :: 0 <= k < |rs| ==> WellFormed(rs[k])
    ensures Run(ParseState(em, NoFields), ReplyLines(rs) + more, file)
         == Run(ParseState(em + Expected(rs, file), NoFields), more, file)
    decreases |rs|
  {
    if rs == [] {
      assert em + Expected(rs, file) == em;
      assert ReplyLines(rs) + more == more;
    } else {
      var next := em + [ReadBack(rs[0]).(file := Some(file))];
      var tail := ReplyLines(rs[1..]) + more;
      assert ReplyLines(rs) + more == FieldLines(rs[0]) + ([Separator] + tail);
      RunRecord(em, rs[0], tail, file);
      RunRecords(next, rs[1..], more, file);
      ExpectedCons(rs, file);
      assert next + Expected(rs[1..], file) == em + Expected(rs, file);
    }
  }

  /** No line of a rendered reply holds a newline. */
  lemma {:induction false} ReplyLinesSingle(rs: seq<Finding>)
    requires forall k :: 0 <= k < |rs| ==> WellFormed(rs[k])
    ensures forall k :: 0 <= k < |ReplyLines(rs)| ==> '\n' !in ReplyLines(rs)[k]
    decreases |rs|
  {
    if rs != [] {
      ReplyLinesSingle(rs[1..]);
      FieldLinesSingle(rs[0]);
      var fields := FieldLines(rs[0]);
      var tail := ReplyLines(rs[1..]);
      assert ReplyLines(rs) == fields + [Separator] + tail;
      forall k | 0 <= k < |ReplyLines(rs)| ensures '\n' !in ReplyLines(rs)[k] {
        if k < |fields| {
          assert ReplyLines(rs)[k] == fields[k];
        } else if k > |fields| {
          assert ReplyLines(rs)[k] == tail[k - |fields| - 1];
        }
      }
    }
  }

  /** No field line of a well-formed record holds a newline. */
  lemma FieldLinesSingle(r: Finding)
    requires WellFormed(r)
    ensures forall k :: 0 <= k < |FieldLines(r)| ==> '\n' !in FieldLines(r)[k]
  {
    if r.line.Some? {
      NumberPlain(r.line.value);
    }
  }


  /** A reply made of single lines joined by newlines, without the sentinel, is parsed line by line. */
  lemma ReplyOfLines(lines: seq<string>, file: string)
    requires |lines| >= 1 && forall k :: 0 <= k < |lines| ==> '\n' !in lines[k]
    requires !Contains(Upper(Join(lines, "\n")), Sentinel)
    ensures ReplyFindings(Join(lines, "\n"), file) == Finish(Run(Start, lines, file), file)
  {
    SplitJoin(lines, '\n');
  }

  /**
   * Round trip: a reply that lists well-formed records, one field per line
   * and each closed by a separator, and does not mention the sentinel,
   * parses back to exactly those records, in order, each with the file
   * added and its severity lower-cased.
   */
  lemma ReplyRoundTrip(rs: seq<Finding>, file: string)
    requires forall k :: 0 <= k < |rs| ==> WellFormed(rs[k])
    requires !Contains(Upper(Render(rs)), Sentinel)
    ensures ReplyFindings(Render(rs), file) == Expected(rs, file)
  {
    if rs == [] {
      assert SplitOn(Render(rs), "\n") == [""];
      assert Run(Start, [""], file) == Start;
    } else {
      var lines := ReplyLines(rs);
      ReplyLinesSingle(rs);
      ReplyOfLines(lines, file);
      RunRecords([], rs, [], file);
      assert lines + [] == lines;
      assert [] + Expected(rs, file) == Expected(rs, file);
    }
  }

  /** A reply listing `rs` and then the fields of `last` with no closing separator. */
  function RenderOpen(rs: seq<Finding>, last: Finding): string {
    Join(ReplyLines(rs) + FieldLines(last), "\n")
  }

  /**
   * The trailing record: when the last record of a reply is not closed by a
   * separator, it is kept exactly when it has a type.
   */
  lemma ReplyRoundTripOpen(rs: seq<Finding>, last: Finding, file: string)
    requires forall k :: 0 <= k < |rs| ==> WellFormed(rs[k])
    requires WellFormed(last)
    requires !Contains(Upper(RenderOpen(rs, last)), Sentinel)
    ensures ReplyFindings(RenderOpen(rs, last), file)
         == Expected(rs, file) + (if last.kind.Some? then [ReadBack(last).(file := Some(file))] else [])
  {
    var head, tail := ReplyLines(rs), FieldLines(last);
    var lines := head + tail;
    ReplyLinesSingle(rs);
    FieldLinesSingle(last);
    forall k | 0 <= k < |lines| ensures '\n' !in lines[k] {
      if k >= |head| {
        assert lines[k] == tail[k - |head|];
      }
    }
    ReplyOfLines(lines, file);
    RunRecords([], rs, tail, file);
    assert [] + Expected(rs, file) == Expected(rs, file);
    RunFields(Expected(rs, file), last, file);
  }


  /** `_parse_ai_response`: the sentinel check, then one pass over the lines and the trailing record. */
  method ParseAiResponse(response: string, file: string) returns (findings: seq<Finding>)
    ensures findings == ReplyFindings(response, file)
    ensures Contains(Upper(response), Sentinel) ==> findings == []
    ensures forall f :: f in findings ==> Emitted(f, file)
  {
    ReplyFindingsEmitted(response, file);
    if Contains(Upper(response), Sentinel) {
      return [];
    }
    var lines := SplitOn(response, "\n");
    var current := NoFields;
    findings := [];
    for i := 0 to |lines|
      invariant Run(ParseState(findings, current), lines[i..], file) == Run(Start, lines, file)
    {
      var line := Strip(lines[i]);
      if StartsWith(line, "TYPE:") {
        current := current.(kind := Some(FieldValue(line, "TYPE:")));
      } else if StartsWith(line, "SEVERITY:") {
        current := current.(severity := Some(Lower(FieldValue(line, "SEVERITY:"))));
      } else if StartsWith(line, "DESCRIPTION:") {
        current := current.(description := Some(FieldValue(line, "DESCRIPTION:")));
      } else if StartsWith(line, "LINE:") {
        var n := ParseInt(FieldValue(line, "LINE:"));
        if n.Some? {
          current := current.(line := Some(n.value));
        }
      } else if line == Separator && current != NoFields {
        findings := findings + [current.(file := Some(file))];
        current := NoFields;
      }
      assert lines[i..][1..] == lines[i + 1..];
    }
    if current.kind.Some? {
      findings := findings + [current.(file := Some(file))];
    }
  }
}
