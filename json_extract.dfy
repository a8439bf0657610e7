/**
 * Pulling the first JSON object out of a model's reply (`extract_json`,
 * `extract_json_string` in generate_data.py): a fenced json block wins when
 * there is one; otherwise a scanner starts at the first '{' and follows the
 * brace depth, ignoring braces inside double-quoted strings and quotes
 * escaped by a backslash, until the depth returns to zero.
 *
 * The fenced-block regex is not modelled: its captured group (or its
 * absence) is the parameter `fenced`.
 */
module JsonExtract {
  import opened Wrappers
  import opened Text

  const NoOpeningBrace := "Aucune accolade ouvrante trouvée dans la chaîne."
  const Incomplete := "JSON complet non trouvé dans le texte."

  /** `text.find(c)`: the index of the first occurrence of `c`, if any. */
  function Find(text: string, c: char): (r: Option<nat>)
    ensures r.None? <==> c !in text
    ensures r.Some? ==> r.value < |text| && text[r.value] == c && c !in text[..r.value]
  {
    if text == [] then None
    else if text[0] == c then Some(0)
    else match Find(text[1..], c)
      case None => None
      case Some(k) => assert text[..k + 1] == [text[0]] + text[1..][..k]; Some(k + 1)
  }

  /** The scanner's variables: `brace_count`, `in_string` and `escape`. */
  datatype ScanState = ScanState(depth: int, inString: bool, escape: bool)

  const Init := ScanState(0, false, false)

  /**
   * One character read by the scanner. An unescaped quote toggles string
   * mode; braces move the depth only outside strings; a backslash escapes
   * the next character unless it is itself escaped.
   */
  function Next(st: ScanState, c: char): (r: ScanState)
    ensures r.inString != st.inString <==> c == '"' && !st.escape
    ensures r.inString || (c != '{' && c != '}') ==> r.depth == st.depth
    ensures !r.inString && c == '{' ==> r.depth == st.depth + 1
    ensures !r.inString && c == '}' ==> r.depth == st.depth - 1
    ensures r.escape <==> c == '\\' && !st.escape
  {
    var inString := if c == '"' && !st.escape then !st.inString else st.inString;
    var depth := if inString then st.depth
                 else if c == '{' then st.depth + 1
                 else if c == '}' then st.depth - 1
                 else st.depth;
    ScanState(depth, inString, c == '\\' && !st.escape)
  }

  /** Whether reading `c` closes the object: a '}' outside a string bringing the depth back to zero. */
  predicate Closes(st: ScanState, c: char) {
    var r := Next(st, c);
    c == '}' && !r.inString && r.depth == 0
  }

  /** The scanner's state after reading all of `s` from the start state. */
  function Scan(s: string): ScanState {
    if s == [] then Init else Next(Scan(s[..|s| - 1]), s[|s| - 1])
  }

  /** The depth after reading all of `s`. */
  function Depth(s: string): int {
    Scan(s).depth
  }

  /** The scan from index `i` in state `st`: the object up to the closing brace, or the incomplete error. */
  function ScanFrom(text: string, start: nat, i: nat, st: ScanState): Result<string, string>
    requires start <= i <= |text|
    decreases |text| - i
  {
    if i == |text| then Failure(Incomplete)
    else if Closes(st, text[i]) then Success(text[start..i + 1])
    else ScanFrom(text, start, i + 1, Next(st, text[i]))
  }

  /** What `extract_json_string` returns, or the message of the exception it raises. */
  function FirstObject(text: string): Result<string, string> {
    match Find(text, '{')
    case None => Failure(NoOpeningBrace)
    case Some(start) => ScanFrom(text, start, start, Init)
  }

  lemma ScanStep(s: string, c: char)
    ensures Scan(s + [c]) == Next(Scan(s), c)
  {
    assert (s + [c])[..|s|] == s;
  }

  /** Every non-empty prefix of `text[start..e]` leaves the depth at one or more. */
  predicate OpenUpTo(text: string, start: nat, e: nat)
    requires start <= e <= |text|
  {
    forall k :: start < k <= e ==> Depth(text[start..k]) >= 1
  }

  /** `text[start..e]` is the shortest slice from `start` that takes the depth back to zero. */
  predicate Balances(text: string, start: nat, e: nat) {
    start < e <= |text| && Depth(text[start..e]) == 0 && OpenUpTo(text, start, e - 1)
  }

  /**
   * The scan from index `i`, when every non-empty prefix of `text[start..i]`
   * left the depth at one or more: a success is the shortest slice from
   * `start` whose depth is zero; a failure means no later prefix reaches zero.
   */
  lemma {:induction false} ScanFromMeaning(text: string, start: nat, i: nat) returns (e: nat)
    requires start < i <= |text| && text[start] == '{'
    requires OpenUpTo(text, start, i)
    ensures var r := ScanFrom(text, start, i, Scan(text[start..i]));
      r.Success? ==> Balances(text, start, e) && r.value == text[start..e]
    ensures var r := ScanFrom(text, start, i, Scan(text[start..i]));
      r.Failure? ==> r.error == Incomplete && OpenUpTo(text, start, |text|)
    decreases |text| - i
  {
    var st := Scan(text[start..i]);
    if i < |text| {
      assert text[start..i + 1] == text[start..i] + [text[i]];
      ScanStep(text[start..i], text[i]);
      var next := Next(st, text[i]);
      assert next == Scan(text[start..i + 1]);
      if Closes(st, text[i]) {
        e := i + 1;
        assert ScanFrom(text, start, i, st) == Success(text[start..i + 1]);
      } else {
        assert ScanFrom(text, start, i, st) == ScanFrom(text, start, i + 1, next);
        assert OpenUpTo(text, start, i);
        assert next.depth >= 1;
        forall k | start < k <= i + 1
          ensures Depth(text[start..k]) >= 1
        {
          if k <= i {
            assert OpenUpTo(text, start, i);
          }
        }
        e := ScanFromMeaning(text, start, i + 1);
      }
    } else {
      e := i;
      assert ScanFrom(text, start, i, st) == Failure(Incomplete);
    }
  }

  /** The first read character, the opening brace, takes the depth to one. */
  lemma OpeningStep(text: string, start: nat)
    requires start < |text| && text[start] == '{'
    ensures Scan(text[start..start + 1]) == ScanState(1, false, false)
    ensures OpenUpTo(text, start, start + 1)
    ensures ScanFrom(text, start, start, Init) == ScanFrom(text, start, start + 1, Scan(text[start..start + 1]))
  {
    assert text[start..start + 1] == [] + ['{'];
    ScanStep([], '{');
  }

  /** The scanner raises the no-brace error exactly when the text holds no '{'. */
  lemma NoBraceMeaning(text: string)
    ensures FirstObject(text) == Failure(NoOpeningBrace) <==> '{' !in text
  {
    if '{' in text {
      var start := Find(text, '{').value;
      OpeningStep(text, start);
      var e := ScanFromMeaning(text, start, start + 1);
    }
  }

  /** A returned object is a balanced slice from the first '{'. */
  lemma SuccessSlice(text: string, start: nat, v: string) returns (e: nat)
    requires Find(text, '{') == Some(start) && FirstObject(text) == Success(v)
    ensures start < e <= |text| && Balances(text, start, e) && v == text[start..e]
  {
    OpeningStep(text, start);
    e := ScanFromMeaning(text, start, start + 1);
  }

  /**
   * A balanced slice from an opening brace begins with '{' and ends with
   * '}', the depth stays at one or more on every proper prefix and is zero
   * at its end.
   */
  lemma BalancedSlice(text: string, start: nat, e: nat, v: string)
    requires start < |text| && text[start] == '{' && Balances(text, start, e) && v == text[start..e]
    ensures 0 < |v| && v[0] == '{' && v[|v| - 1] == '}'
    ensures Depth(v) == 0
    ensures forall k :: 0 < k < |v| ==> Depth(v[..k]) >= 1
  {
    OpeningStep(text, start);
    assert e - 1 > start;
    assert OpenUpTo(text, start, e - 1);
    var before := Scan(text[start..e - 1]);
    assert before.depth >= 1;
    assert text[start..e] == text[start..e - 1] + [text[e - 1]];
    ScanStep(text[start..e - 1], text[e - 1]);
    forall k | 0 < k < |v|
      ensures Depth(v[..k]) >= 1
    {
      assert v[..k] == text[start..start + k];
    }
  }

  /**
   * A returned object is the slice of the text from its first '{' to the
   * brace that balances it: it begins with '{' and ends with '}', the depth
   * stays at one or more on every proper prefix and is zero at its end.
   */
  lemma SuccessMeaning(text: string, start: nat, v: string) returns (end: nat)
    requires Find(text, '{') == Some(start) && FirstObject(text) == Success(v)
    ensures start < end <= |text| && v == text[start..end]
    ensures 0 < |v| && v[0] == '{' && v[|v| - 1] == '}'
    ensures Depth(v) == 0
    ensures forall k :: 0 < k < |v| ==> Depth(v[..k]) >= 1
  {
    end := SuccessSlice(text, start, v);
    BalancedSlice(text, start, end, v);
  }

  /** The scanner raises the incomplete error exactly when the depth never returns to zero after the first '{'. */
  lemma IncompleteMeaning(text: string, start: nat)
    requires Find(text, '{') == Some(start)
    ensures FirstObject(text) == Failure(Incomplete) <==> OpenUpTo(text, start, |text|)
  {
    OpeningStep(text, start);
    var e := ScanFromMeaning(text, start, start + 1);
    if FirstObject(text).Success? {
      assert Depth(text[start..e]) == 0;
    }
  }

  /** A backslash escapes the next character only: a second backslash is itself escaped and escapes nothing. */
  lemma BackslashPairs(st: ScanState)
    requires !st.escape
    ensures Next(st, '\\').escape
    ensures !Next(Next(st, '\\'), '\\').escape
    ensures Next(Next(st, '\\'), '"').inString == st.inString
    ensures Next(Next(Next(st, '\\'), '\\'), '"').inString != st.inString
  {
  }

  /** `extract_json_string`: the loop over `range(start, len(text))` with its early return. */
  method ExtractJsonString(text: string) returns (r: Result<string, string>)
    ensures r == FirstObject(text)
  {
    var found := Find(text, '{');
    if found.None? {
      return Failure(NoOpeningBrace);
    }
    var start := found.value;
    var braceCount := 0;
    var inString := false;
    var escape := false;
    for i := start to |text|
      invariant ScanFrom(text, start, i, ScanState(braceCount, inString, escape)) == FirstObject(text)
    {
      var c := text[i];
      ghost var st := ScanState(braceCount, inString, escape);
      if c == '"' && !escape {
        inString := !inString;
      }
      if !inString {
        if c == '{' {
          braceCount := braceCount + 1;
        } else if c == '}' {
          braceCount := braceCount - 1;
          if braceCount == 0 {
            return Success(text[start..i + 1]);
          }
        }
      }
      if c == '\\' && !escape {
        escape := true;
      } else {
        escape := false;
      }
      assert ScanState(braceCount, inString, escape) == Next(st, c);
    }
    return Failure(Incomplete);
  }

  /** `extract_json`: the stripped fenced block when there is one, and only otherwise the brace scan. */
  method ExtractJson(text: string, fenced: Option<string>) returns (r: Result<string, string>)
    ensures fenced.Some? ==> r == Success(Strip(fenced.value))
    ensures fenced.None? ==> r == FirstObject(text)
  {
    if fenced.Some? {
      return Success(Strip(fenced.value));
    }
    r := ExtractJsonString(text);
  }
}
