/**
 * The Python string operations the scanner relies on, on `seq<char>`:
 * `strip`, `split`, `join`, `startswith`, `in`, `replace(x, '')`, slicing
 * with possibly negative bounds, ASCII case mapping, `str(int)` and `int(str)`.
 */
module Text {
  import opened Wrappers

  /** Python's `str.isspace` on one character. */
  predicate IsSpace(c: char) {
    c == ' ' || ('\t' <= c <= '\r') || ('\U{1C}' <= c <= '\U{1F}')
    || c == '\U{85}' || c == '\U{A0}' || c == '\U{1680}'
    || ('\U{2000}' <= c <= '\U{200A}') || c == '\U{2028}' || c == '\U{2029}'
    || c == '\U{202F}' || c == '\U{205F}' || c == '\U{3000}'
  }

  function StripLeft(s: string): string {
    if s != [] && IsSpace(s[0]) then StripLeft(s[1..]) else s
  }

  function StripRight(s: string): string {
    if s != [] && IsSpace(s[|s| - 1]) then StripRight(s[..|s| - 1]) else s
  }

  /** Python's `str.strip()`: drop leading and trailing white space. */
  function Strip(s: string): string {
    StripRight(StripLeft(s))
  }

  /** `lstrip` drops exactly the leading white space: a suffix remains that does not start with a space. */
  lemma {:induction false} StripLeftMeaning(s: string)
    ensures var r := StripLeft(s);
      |r| <= |s| && r == s[|s| - |r|..] && (r != [] ==> !IsSpace(r[0]))
      && forall i :: 0 <= i < |s| - |r| ==> IsSpace(s[i])
  {
    if s != [] && IsSpace(s[0]) {
      var t := s[1..];
      StripLeftMeaning(t);
      var r := StripLeft(t);
      assert t[|t| - |r|..] == s[|s| - |r|..];
      forall i | 0 <= i < |s| - |r|
        ensures IsSpace(s[i])
      {
        if i > 0 {
          assert s[i] == t[i - 1];
        }
      }
    }
  }

  /** `rstrip` drops exactly the trailing white space: a prefix remains that does not end with a space. */
  lemma {:induction false} StripRightMeaning(s: string)
    ensures var r := StripRight(s);
      |r| <= |s| && r == s[..|r|] && (r != [] ==> !IsSpace(r[|r| - 1]))
      && forall i :: |r| <= i < |s| ==> IsSpace(s[i])
  {
    if s != [] && IsSpace(s[|s| - 1]) {
      var t := s[..|s| - 1];
      StripRightMeaning(t);
      var r := StripRight(t);
      assert t[..|r|] == s[..|r|];
      forall i | |r| <= i < |s|
        ensures IsSpace(s[i])
      {
        if i < |s| - 1 {
          assert s[i] == t[i];
        }
      }
    }
  }

  /**
   * `strip` keeps the slice `s[a..b]` and drops only white space around it;
   * what it keeps neither starts nor ends with white space.
   */
  lemma StripMeaning(s: string) returns (a: nat, b: nat)
    ensures a <= b <= |s| && Strip(s) == s[a..b]
    ensures forall i :: 0 <= i < a ==> IsSpace(s[i])
    ensures forall i :: b <= i < |s| ==> IsSpace(s[i])
    ensures Strip(s) != [] ==> !IsSpace(Strip(s)[0]) && !IsSpace(Strip(s)[|Strip(s)| - 1])
  {
    StripLeftMeaning(s);
    var l := StripLeft(s);
    StripRightMeaning(l);
    var r := StripRight(l);
    a := |s| - |l|;
    b := a + |r|;
    assert r == l[..|r|] && l == s[a..];
    assert s[a..][..|r|] == s[a..b];
    forall i | b <= i < |s|
      ensures IsSpace(s[i])
    {
      assert s[i] == l[i - a];
    }
    if r != [] {
      assert r[0] == l[0];
    }
  }

  /** Python's `s.startswith(p)`. */
  predicate StartsWith(s: string, p: string) {
    |p| <= |s| && s[..|p|] == p
  }

  /** Python's `s.endswith(suffix)`. */
  predicate EndsWith(s: string, suffix: string) {
    |suffix| <= |s| && s[|s| - |suffix|..] == suffix
  }

  lemma Affixes(a: string, b: string)
    ensures StartsWith(a + b, a) && EndsWith(a + b, b)
  {
    assert (a + b)[..|a|] == a;
    assert (a + b)[|a|..] == b;
  }

  lemma Associate<T>(a: seq<T>, b: seq<T>, c: seq<T>)
    ensures (a + b) + c == a + (b + c)
  {
  }

  lemma PrefixTrans(a: string, b: string, c: string)
    requires StartsWith(a, b) && StartsWith(b, c)
    ensures StartsWith(a, c)
  {
    assert a[..|c|] == a[..|b|][..|c|];
  }

  /** Python's `sub in s`. */
  predicate Contains(s: string, sub: string)
    decreases |s|
  {
    StartsWith(s, sub) || (s != [] && Contains(s[1..], sub))
  }

  lemma {:induction false} ContainsTooShort(s: string, sub: string)
    requires |s| < |sub|
    ensures !Contains(s, sub)
  {
    if s != [] {
      ContainsTooShort(s[1..], sub);
    }
  }

  /** An occurrence of `sub` at index `k` makes `s` contain `sub`. */
  lemma {:induction false} ContainsAt(s: string, sub: string, k: nat)
    requires k + |sub| <= |s| && s[k..k + |sub|] == sub
    ensures Contains(s, sub)
  {
    if k > 0 {
      assert s[1..][k - 1..k - 1 + |sub|] == s[k..k + |sub|];
      ContainsAt(s[1..], sub, k - 1);
    }
  }

  lemma ContainsMiddle(a: string, b: string, c: string)
    ensures Contains(a + b + c, b)
  {
    assert (a + b + c)[|a|..|a| + |b|] == b;
    ContainsAt(a + b + c, b, |a|);
  }

  /** Each of three consecutive pieces occurs in a text that holds them between `a` and `z`. */
  lemma ContainsParts(a: string, s: string, c: string, h: string, z: string)
    ensures Contains(a + (s + c + h) + z, s)
    ensures Contains(a + (s + c + h) + z, c)
    ensures Contains(a + (s + c + h) + z, h)
  {
    var r := a + (s + c + h) + z;
    assert r == a + s + (c + h + z);
    ContainsMiddle(a, s, c + h + z);
    assert r == (a + s) + c + (h + z);
    ContainsMiddle(a + s, c, h + z);
    assert r == (a + s + c) + h + z;
    ContainsMiddle(a + s + c, h, z);
  }

  /** Python's `s.split(sep)` for a non-empty separator: left to right, non-overlapping. */
  function SplitOn(s: string, sep: string): (r: seq<string>)
    requires sep != []
    ensures |r| >= 1
    decreases |s|
  {
    if |s| < |sep| then [s]
    else if s[..|sep|] == sep then [""] + SplitOn(s[|sep|..], sep)
    else
      var rest := SplitOn(s[1..], sep);
      [[s[0]] + rest[0]] + rest[1..]
  }

  /** Python's `sep.join(parts)`. */
  function Join(parts: seq<string>, sep: string): string {
    if |parts| == 0 then ""
    else if |parts| == 1 then parts[0]
    else parts[0] + sep + Join(parts[1..], sep)
  }

  /** Splitting and joining on the same separator gives back the original text. */
  lemma {:induction false} JoinSplit(s: string, sep: string)
    requires sep != []
    ensures Join(SplitOn(s, sep), sep) == s
    decreases |s|
  {
    if |s| < |sep| {
    } else if s[..|sep|] == sep {
      var rest := SplitOn(s[|sep|..], sep);
      JoinSplit(s[|sep|..], sep);
      assert SplitOn(s, sep) == [""] + rest;
      assert ([""] + rest)[1..] == rest;
      assert Join(SplitOn(s, sep), sep) == "" + sep + s[|sep|..];
    } else {
      var rest := SplitOn(s[1..], sep);
      JoinSplit(s[1..], sep);
      var r := [[s[0]] + rest[0]] + rest[1..];
      assert SplitOn(s, sep) == r;
      if |rest| == 1 {
        assert Join(r, sep) == [s[0]] + rest[0];
        assert Join(rest, sep) == rest[0];
      } else {
        assert r[1..] == rest[1..];
        assert Join(r, sep) == [s[0]] + rest[0] + sep + Join(rest[1..], sep);
        assert Join(rest, sep) == rest[0] + sep + Join(rest[1..], sep);
      }
      assert Join(r, sep) == [s[0]] + Join(rest, sep);
    }
  }

  /** Splitting on a one-character separator that does not occur leaves the text whole. */
  lemma {:induction false} SplitAbsent(p: string, c: char)
    requires c !in p
    ensures SplitOn(p, [c]) == [p]
    decreases |p|
  {
    if p != [] {
      SplitAbsent(p[1..], c);
      assert p[..1] == [p[0]] && [p[0]] + p[1..] == p;
    }
  }

  /** The first part of a split on a one-character separator runs up to its first occurrence. */
  lemma {:induction false} SplitFirst(p: string, c: char, rest: string)
    requires c !in p
    ensures SplitOn(p + [c] + rest, [c]) == [p] + SplitOn(rest, [c])
    decreases |p|
  {
    var s := p + [c] + rest;
    if p == [] {
      assert s[..1] == [c] && s[1..] == rest;
    } else {
      SplitFirst(p[1..], c, rest);
      assert s[..1] == [p[0]] && s[1..] == p[1..] + [c] + rest;
      assert [p[0]] + p[1..] == p;
    }
  }

  /** `sep.join(parts).split(sep) == parts` for a one-character separator that no part holds. */
  lemma {:induction false} SplitJoin(parts: seq<string>, c: char)
    requires |parts| >= 1 && forall k :: 0 <= k < |parts| ==> c !in parts[k]
    ensures SplitOn(Join(parts, [c]), [c]) == parts
    decreases |parts|
  {
    if |parts| == 1 {
      SplitAbsent(parts[0], c);
    } else {
      SplitJoin(parts[1..], c);
      SplitFirst(parts[0], c, Join(parts[1..], [c]));
      assert parts == [parts[0]] + parts[1..];
    }
  }

  /** `s.split(sep)` has more than one part exactly when `sep in s`. */
  lemma {:induction false} SplitCountsSeparators(s: string, sep: string)
    requires sep != []
    ensures Contains(s, sep) <==> |SplitOn(s, sep)| >= 2
    decreases |s|
  {
    if |s| < |sep| {
      ContainsTooShort(s, sep);
    } else if s[..|sep|] == sep {
      assert StartsWith(s, sep);
    } else {
      SplitCountsSeparators(s[1..], sep);
      assert !StartsWith(s, sep);
      assert Contains(s, sep) == Contains(s[1..], sep);
    }
  }

  /** Python's `s.replace(pat, '')`: every non-overlapping occurrence, left to right, removed. */
  function RemoveAll(s: string, pat: string): (r: string)
    requires pat != []
    ensures |r| <= |s|
    decreases |s|
  {
    if |s| < |pat| then s
    else if s[..|pat|] == pat then RemoveAll(s[|pat|..], pat)
    else [s[0]] + RemoveAll(s[1..], pat)
  }

  /** A text none of whose characters starts `sub` does not contain it. */
  lemma {:induction false} AbsentFirst(s: string, sub: string)
    requires sub != [] && forall i :: 0 <= i < |s| ==> s[i] != sub[0]
    ensures !Contains(s, sub)
    decreases |s|
  {
    if s != [] {
      AbsentFirst(s[1..], sub);
    }
  }

  /** Removing a pattern that does not occur changes nothing. */
  lemma {:induction false} RemoveAbsent(s: string, pat: string)
    requires pat != [] && !Contains(s, pat)
    ensures RemoveAll(s, pat) == s
    decreases |s|
  {
    if |s| >= |pat| {
      assert !StartsWith(s, pat);
      RemoveAbsent(s[1..], pat);
      assert [s[0]] + s[1..] == s;
    }
  }

  /** Python's `s[:k]`, where a negative `k` counts from the end. */
  function PyTake(s: string, k: int): (r: string)
    ensures |r| <= |s| && r == s[..|r|]
    ensures 0 <= k ==> |r| == if k <= |s| then k else |s|
    ensures k < 0 ==> |r| == if -k <= |s| then |s| + k else 0
  {
    if k >= 0 then (if k <= |s| then s[..k] else s)
    else (if -k <= |s| then s[..|s| + k] else [])
  }

  /** Python's `s[-k:]` for a positive `k`: the last `k` characters, or all of them. */
  function PyLast(s: string, k: nat): (r: string)
    requires k > 0
    ensures |r| == if k <= |s| then k else |s|
    ensures r == s[|s| - |r|..]
  {
    if k <= |s| then s[|s| - k..] else s
  }

  predicate IsUpperAscii(c: char) { 'A' <= c <= 'Z' }
  predicate IsLowerAscii(c: char) { 'a' <= c <= 'z' }
  predicate IsLetterAscii(c: char) { IsUpperAscii(c) || IsLowerAscii(c) }
  predicate IsDigit(c: char) { '0' <= c <= '9' }

  function LowerChar(c: char): (r: char)
    ensures !IsUpperAscii(r)
    ensures IsLetterAscii(r) == IsLetterAscii(c)
  {
    if IsUpperAscii(c) then (c as int + 32) as char else c
  }

  function UpperChar(c: char): (r: char)
    ensures !IsLowerAscii(r)
    ensures IsLetterAscii(r) == IsLetterAscii(c)
  {
    if IsLowerAscii(c) then (c as int - 32) as char else c
  }

  /** Python's `str.lower()` on ASCII letters. */
  function Lower(s: string): (r: string)
    ensures |r| == |s|
    ensures forall i :: 0 <= i < |s| ==> r[i] == LowerChar(s[i])
  {
    seq(|s|, i requires 0 <= i < |s| => LowerChar(s[i]))
  }

  /** Python's `str.upper()` on ASCII letters. */
  function Upper(s: string): (r: string)
    ensures |r| == |s|
    ensures forall i :: 0 <= i < |s| ==> r[i] == UpperChar(s[i])
  {
    seq(|s|, i requires 0 <= i < |s| => UpperChar(s[i]))
  }

  /**
   * Python's `str.title()` on ASCII letters: a letter is upper-cased when
   * the character before it is not a letter, and lower-cased otherwise.
   */
  function TitleAfter(s: string, prevCased: bool): string {
    if s == [] then []
    else [if prevCased then LowerChar(s[0]) else UpperChar(s[0])] + TitleAfter(s[1..], IsLetterAscii(s[0]))
  }

  function Title(s: string): string {
    TitleAfter(s, false)
  }

  /** Title case keeps the length; a character is upper-cased at the start of a word and lower-cased inside one. */
  lemma {:induction false} TitleMeaning(s: string, prevCased: bool)
    ensures var r := TitleAfter(s, prevCased);
      && |r| == |s|
      && (s != [] ==> r[0] == if prevCased then LowerChar(s[0]) else UpperChar(s[0]))
      && forall i :: 0 < i < |s| ==>
           r[i] == if IsLetterAscii(s[i - 1]) then LowerChar(s[i]) else UpperChar(s[i])
  {
    if s != [] {
      var t := s[1..];
      TitleMeaning(t, IsLetterAscii(s[0]));
      var r := TitleAfter(s, prevCased);
      forall i | 0 < i < |s|
        ensures r[i] == if IsLetterAscii(s[i - 1]) then LowerChar(s[i]) else UpperChar(s[i])
      {
        assert r[i] == TitleAfter(t, IsLetterAscii(s[0]))[i - 1];
        if i > 1 {
          assert s[i - 1] == t[i - 2] && s[i] == t[i - 1];
        }
      }
    }
  }

  function DigitChar(d: nat): (c: char)
    requires d < 10
    ensures IsDigit(c) && c as int - '0' as int == d
  {
    ('0' as int + d) as char
  }

  /** Python's `str(n)` for a natural number. */
  function NatToString(n: nat): (r: string)
    ensures r != [] && forall i :: 0 <= i < |r| ==> IsDigit(r[i])
  {
    if n < 10 then [DigitChar(n)] else NatToString(n / 10) + [DigitChar(n % 10)]
  }

  /** Python's `str(i)` for any integer. */
  function IntToString(i: int): (r: string)
    ensures r != []
  {
    if i < 0 then "-" + NatToString(-i) else NatToString(i)
  }

  /** The value of a string of decimal digits, most significant first. */
  function DigitsValue(s: string): nat
    requires forall i :: 0 <= i < |s| ==> IsDigit(s[i])
  {
    if s == [] then 0
    else
      assert IsDigit(s[|s| - 1]);
      DigitsValue(s[..|s| - 1]) * 10 + (s[|s| - 1] as int - '0' as int)
  }

  /** Digits with single underscores between them, as Python's `int()` accepts. */
  predicate DigitGroups(s: string) {
    && s != [] && IsDigit(s[0]) && IsDigit(s[|s| - 1])
    && (forall i :: 0 <= i < |s| ==> IsDigit(s[i]) || s[i] == '_')
    && (forall i :: 0 <= i < |s| - 1 ==> !(s[i] == '_' && s[i + 1] == '_'))
  }

  function Digits(s: string): (r: string)
    ensures forall i :: 0 <= i < |r| ==> r[i] != '_'
    ensures (forall i :: 0 <= i < |s| ==> IsDigit(s[i]) || s[i] == '_') ==>
      forall i :: 0 <= i < |r| ==> IsDigit(r[i])
  {
    if s == [] then [] else (if s[0] == '_' then [] else [s[0]]) + Digits(s[1..])
  }

  function ParseUnsigned(s: string): Option<nat> {
    if DigitGroups(s) then Some(DigitsValue(Digits(s))) else None
  }

  /**
   * Python's `int(s)` on a string: surrounding white space, an optional
   * sign, then decimal digits; `None` where Python raises `ValueError`.
   */
  function ParseInt(s: string): Option<int> {
    var t := Strip(s);
    if t != [] && (t[0] == '+' || t[0] == '-') then
      match ParseUnsigned(t[1..])
      case Some(v) =>
        var signed: int := if t[0] == '-' then 0 - v else v;
        Some(signed)
      case None => None
    else
      match ParseUnsigned(t)
      case Some(v) => Some(v)
      case None => None
  }

  lemma {:induction false} DigitsValueOfNat(n: nat)
    ensures DigitsValue(NatToString(n)) == n
  {
    var s := NatToString(n);
    if n >= 10 {
      DigitsValueOfNat(n / 10);
      assert s[..|s| - 1] == NatToString(n / 10);
    }
  }

  lemma {:induction false} DigitsOfDigitsOnly(s: string)
    requires forall i :: 0 <= i < |s| ==> IsDigit(s[i])
    ensures Digits(s) == s
  {
    if s != [] {
      DigitsOfDigitsOnly(s[1..]);
    }
  }

  lemma StripUnpadded(s: string)
    requires s != [] && !IsSpace(s[0]) && !IsSpace(s[|s| - 1])
    ensures Strip(s) == s
  {
    assert StripLeft(s) == s;
    assert StripRight(s) == s;
  }

  lemma ParseNatString(n: nat)
    ensures ParseUnsigned(NatToString(n)) == Some(n)
  {
    var d := NatToString(n);
    DigitsValueOfNat(n);
    DigitsOfDigitsOnly(d);
    assert DigitGroups(d);
  }

  /** `str(i)` is a sign and digits, with no surrounding white space. */
  lemma IntToStringChars(i: int)
    ensures forall k :: 0 <= k < |IntToString(i)| ==> IntToString(i)[k] == '-' || IsDigit(IntToString(i)[k])
    ensures Strip(IntToString(i)) == IntToString(i)
  {
    var s := IntToString(i);
    if i < 0 {
      assert s[1..] == NatToString(-i);
    }
    StripUnpadded(s);
  }

  /** `int(str(i)) == i`: the decimal rendering reads back as the same number. */
  lemma IntRoundTrip(i: int)
    ensures ParseInt(IntToString(i)) == Some(i)
  {
    var s := IntToString(i);
    if i < 0 {
      var d := NatToString(-i);
      ParseNatString(-i);
      StripUnpadded(s);
      assert s[1..] == d;
    } else {
      ParseNatString(i);
      StripUnpadded(s);
    }
  }
}
