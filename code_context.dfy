/**
 * The code context attached to a finding (`_get_code_context` with its
 * default of two lines either side): the lines around line `n`, the line
 * itself marked with ">>> " and the others indented by four spaces.
 */
module CodeContext {
  import opened Text

  const Marker := ">>> "
  const Indent := "    "

  /** `max(0, n - 2 - 1)`: the first index of the window. */
  function WindowStart(n: int): nat {
    if n - 3 > 0 then n - 3 else 0
  }

  /** `min(len(lines), n + 2)`: one past the last index of the window. */
  function WindowEnd(count: nat, n: int): int {
    if count < n + 2 then count else n + 2
  }

  /** Line `i` of the window as it is shown: marked when it is the finding's own line. */
  function Shown(i: int, n: int, line: string): string {
    (if i == n - 1 then Marker else Indent) + line
  }

  /** The shown lines of the window, in file order; empty when `range(start, end)` is. */
  function Window(lines: seq<string>, n: int): seq<string> {
    var s := WindowStart(n);
    var e := WindowEnd(|lines|, n);
    if e <= s then []
    else seq(e - s, k requires 0 <= k < e - s => Shown(s + k, n, lines[s + k]))
  }

  /** The code context of line `n` of `content`. */
  function CodeContextOf(content: string, n: int): string {
    Join(Window(SplitOn(content, "\n"), n), "\n")
  }

  /**
   * The window runs from line `max(1, n - 2)` to line `min(len(lines), n + 2)`,
   * so it holds at most five lines, all of them from the file in order. The
   * line at index `n - 1` is shown with the marker and every other with the
   * indent, so exactly one line is marked when `n` names a line of the
   * file, and none otherwise.
   */
  lemma WindowShape(lines: seq<string>, n: int)
    ensures |Window(lines, n)| == if WindowEnd(|lines|, n) <= WindowStart(n) then 0
                                  else WindowEnd(|lines|, n) - WindowStart(n)
    ensures |Window(lines, n)| <= 5
    ensures forall k :: 0 <= k < |Window(lines, n)| ==>
      WindowStart(n) + k < |lines| && EndsWith(Window(lines, n)[k], lines[WindowStart(n) + k])
    ensures forall k :: 0 <= k < |Window(lines, n)| ==>
      (StartsWith(Window(lines, n)[k], Marker) <==> WindowStart(n) + k == n - 1)
    ensures forall k :: 0 <= k < |Window(lines, n)| ==>
      Window(lines, n)[k] == if WindowStart(n) + k == n - 1 then Marker + lines[n - 1]
                             else Indent + lines[WindowStart(n) + k]
    ensures (exists k :: 0 <= k < |Window(lines, n)| && StartsWith(Window(lines, n)[k], Marker))
            <==> 1 <= n <= |lines|
  {
    var w := Window(lines, n);
    var s := WindowStart(n);
    forall k | 0 <= k < |w|
      ensures s + k < |lines|
      ensures StartsWith(w[k], Marker) <==> s + k == n - 1
      ensures EndsWith(w[k], lines[s + k])
      ensures w[k] == if s + k == n - 1 then Marker + lines[n - 1] else Indent + lines[s + k]
    {
      WindowLine(lines, n, k);
    }
    if 1 <= n <= |lines| {
      assert WindowEnd(|lines|, n) > n - 1 >= s;
      WindowLine(lines, n, n - 1 - s);
    }
  }

  /** Line `k` of the window: marked exactly when it is line `n` itself, indented otherwise. */
  lemma WindowLine(lines: seq<string>, n: int, k: nat)
    requires k < |Window(lines, n)|
    ensures WindowStart(n) + k < |lines|
    ensures Window(lines, n)[k] == Shown(WindowStart(n) + k, n, lines[WindowStart(n) + k])
    ensures StartsWith(Window(lines, n)[k], Marker) <==> WindowStart(n) + k == n - 1
    ensures EndsWith(Window(lines, n)[k], lines[WindowStart(n) + k])
    ensures Window(lines, n)[k] == if WindowStart(n) + k == n - 1 then Marker + lines[n - 1]
                                   else Indent + lines[WindowStart(n) + k]
  {
    var s := WindowStart(n);
    var l := lines[s + k];
    var r := Window(lines, n)[k];
    if s + k == n - 1 {
      assert r == Marker + l;
      assert r[..4] == Marker;
    } else {
      assert r == Indent + l;
      assert r[..4] == Indent;
    }
    assert r[|r| - |l|..] == l;
  }

  /** `_get_code_context`: the loop over `range(start_line, end_line)`, then the join. */
  method GetCodeContext(content: string, n: int) returns (context: string)
    ensures context == CodeContextOf(content, n)
  {
    var lines := SplitOn(content, "\n");
    var start := WindowStart(n);
    var end := WindowEnd(|lines|, n);
    var shown: seq<string> := [];
    var i := start;
    while i < end
      invariant start <= i && (i > start ==> i <= end <= |lines|)
      invariant |shown| == i - start
      invariant forall k :: 0 <= k < |shown| ==> shown[k] == Shown(start + k, n, lines[start + k])
    {
      if i == n - 1 {
        shown := shown + [Marker + lines[i]];
      } else {
        shown := shown + [Indent + lines[i]];
      }
      i := i + 1;
    }
    if start < end {
      assert shown == Window(lines, n);
    }
    context := Join(shown, "\n");
  }
}
