/** Python string operations that the modelled code uses: stripping and splitting into lines. */
module Text {
  import opened Common

  /** The characters that Python's `str.strip` removes. */
  predicate IsSpace(c: char) {
    || c == ' ' || '\t' <= c <= '\r' || '\U{1c}' <= c <= '\U{1f}'
    || c == '\U{85}' || c == '\U{a0}' || c == '\U{1680}' || '\U{2000}' <= c <= '\U{200a}'
    || c == '\U{2028}' || c == '\U{2029}' || c == '\U{202f}' || c == '\U{205f}' || c == '\U{3000}'
  }

  function StripLeft(s: string): (r: string)
    ensures |r| <= |s|
    ensures r != [] ==> !IsSpace(r[0])
    ensures s != [] && !IsSpace(s[0]) ==> r == s
  {
    if s != [] && IsSpace(s[0]) then StripLeft(s[1..]) else s
  }

  function StripRight(s: string): (r: string)
    ensures r <= s
    ensures r != [] ==> !IsSpace(Last(r))
    ensures s != [] && !IsSpace(Last(s)) ==> r == s
  {
    if s != [] && IsSpace(Last(s)) then StripRight(s[..|s| - 1]) else s
  }

  function Strip(s: string): string {
    StripRight(StripLeft(s))
  }

  predicate AllSpace(s: string) {
    forall i :: 0 <= i < |s| ==> IsSpace(s[i])
  }

  /** No white space at either end. */
  predicate Trimmed(s: string) {
    s == "" || (!IsSpace(s[0]) && !IsSpace(Last(s)))
  }

  lemma {:induction false} LeftStripped(s: string) returns (left: string)
    ensures s == left + StripLeft(s) && AllSpace(left)
  {
    if s != [] && IsSpace(s[0]) {
      var more := LeftStripped(s[1..]);
      left := [s[0]] + more;
    } else {
      left := [];
    }
  }

  lemma {:induction false} RightStripped(s: string) returns (right: string)
    ensures s == StripRight(s) + right && AllSpace(right)
  {
    if s != [] && IsSpace(Last(s)) {
      var more := RightStripped(s[..|s| - 1]);
      right := more + [Last(s)];
      assert s == s[..|s| - 1] + [Last(s)];
    } else {
      right := [];
    }
  }

  /** Stripping takes white space off both ends, all of it, and nothing else. */
  lemma {:induction false} StripIs(s: string) returns (left: string, right: string)
    ensures s == left + Strip(s) + right && AllSpace(left) && AllSpace(right) && Trimmed(Strip(s))
  {
    left := LeftStripped(s);
    right := RightStripped(StripLeft(s));
    if Strip(s) != "" {
      assert Strip(s)[0] == StripLeft(s)[0];
    }
  }

  lemma {:induction false} LeftPadded(left: string, s: string)
    requires AllSpace(left) && (s == "" || !IsSpace(s[0]))
    ensures StripLeft(left + s) == s
  {
    if left == [] {
      assert left + s == s;
    } else {
      assert (left + s)[1..] == left[1..] + s;
      LeftPadded(left[1..], s);
    }
  }

  lemma {:induction false} RightPadded(s: string, right: string)
    requires AllSpace(right) && (s == "" || !IsSpace(Last(s)))
    ensures StripRight(s + right) == s
  {
    if right == [] {
      assert s + right == s;
    } else {
      assert (s + right)[..|s + right| - 1] == s + right[..|right| - 1] && Last(s + right) == Last(right);
      RightPadded(s, right[..|right| - 1]);
    }
  }

  /** White space around a trimmed text is exactly what stripping removes. */
  lemma {:induction false} StripPadded(left: string, s: string, right: string)
    requires AllSpace(left) && AllSpace(right) && Trimmed(s) && s != ""
    ensures Strip(left + s + right) == s
  {
    assert left + s + right == left + (s + right);
    LeftPadded(left, s + right);
    RightPadded(s, right);
  }

  /** What configuration files use between names is white space, what they use in names is not. */
  lemma {:induction false} SpaceCharacters(c: char)
    ensures c in " \t\r\n" ==> IsSpace(c)
    ensures '!' <= c <= '~' ==> !IsSpace(c)
  {
  }

  lemma {:induction false} StripKeepsTrimmed(s: string)
    ensures Strip(s) == s <==> Trimmed(s)
  {
    if s != "" && Strip(s) == s {
      assert |StripLeft(s)| == |s|;
    }
  }

  /** The single characters at which `str.splitlines` breaks a text. */
  predicate IsLineBreak(c: char) {
    || '\n' <= c <= '\r' || '\U{1c}' <= c <= '\U{1e}'
    || c == '\U{85}' || c == '\U{2028}' || c == '\U{2029}'
  }

  /** Beside line feed and return these are the vertical tab, the form feed and the separators. */
  lemma {:induction false} LineBreakCharacters(c: char)
    ensures IsLineBreak(c) ==> IsSpace(c) && c != ' ' && c != '\t' && c != '\U{a0}'
    ensures '\n' <= c <= '\r' ==> IsLineBreak(c)
  {
  }

  /** The characters before the first line break. */
  function FirstLine(s: string): (line: string)
    ensures line <= s
    ensures |line| < |s| ==> IsLineBreak(s[|line|])
  {
    if s == [] || IsLineBreak(s[0]) then [] else [s[0]] + FirstLine(s[1..])
  }

  lemma {:induction false} FirstLineHasNoBreak(s: string, c: char)
    requires c in FirstLine(s)
    ensures !IsLineBreak(c)
  {
    if s != [] && !IsLineBreak(s[0]) && c != s[0] {
      assert FirstLine(s) == [s[0]] + FirstLine(s[1..]);
      FirstLineHasNoBreak(s[1..], c);
    }
  }

  /** What follows the first line break; a carriage return takes a following line feed along. */
  function AfterLine(s: string): (rest: string)
    ensures s != [] ==> |rest| < |s|
  {
    var i := |FirstLine(s)|;
    if i >= |s| then [] else
      s[i + (if s[i] == '\r' && i + 1 < |s| && s[i + 1] == '\n' then 2 else 1)..]
  }

  /** `s.splitlines()` */
  function SplitLines(s: string): seq<string>
    decreases |s|
  {
    if s == [] then [] else [FirstLine(s)] + SplitLines(AfterLine(s))
  }

  /** `sep.join(parts)` */
  function Join(parts: seq<string>, sep: string): string {
    if parts == [] then [] else if |parts| == 1 then parts[0] else parts[0] + sep + Join(parts[1..], sep)
  }

  ghost predicate OneLine(s: string) {
    forall i :: 0 <= i < |s| ==> !IsLineBreak(s[i])
  }

  lemma {:induction false} FirstLineOf(line: string, tail: string)
    requires OneLine(line) && (tail != "" ==> IsLineBreak(tail[0]))
    ensures FirstLine(line + tail) == line
  {
    if line == [] {
      assert line + tail == tail;
    } else {
      assert (line + tail)[1..] == line[1..] + tail;
      FirstLineOf(line[1..], tail);
    }
  }

  lemma {:induction false} LineThenRest(line: string, rest: string)
    requires OneLine(line)
    ensures SplitLines(line + ("\n" + rest)) == [line] + SplitLines(rest)
  {
    var s := line + ("\n" + rest);
    FirstLineOf(line, "\n" + rest);
    assert s[|line|] == '\n';
    assert s[|line| + 1..] == rest;
    assert AfterLine(s) == rest;
  }

  lemma {:induction false} SingleLine(line: string)
    requires OneLine(line) && line != ""
    ensures SplitLines(line) == [line]
  {
    FirstLineOf(line, "");
    assert line + "" == line;
    assert AfterLine(line) == [];
  }

  lemma {:induction false} SplitJoined(line: string, more: seq<string>)
    requires OneLine(line) && more != [] && SplitLines(Join(more, "\n")) == more
    ensures SplitLines(Join([line] + more, "\n")) == [line] + more
  {
    var rest := Join(more, "\n");
    assert ([line] + more)[1..] == more;
    assert Join([line] + more, "\n") == line + "\n" + rest == line + ("\n" + rest);
    LineThenRest(line, rest);
  }

  /** Lines joined with line feeds are split into the same lines, unless the last one is empty. */
  lemma {:induction false} LinesRoundTrip(lines: seq<string>)
    requires forall line :: line in lines ==> OneLine(line)
    requires lines != [] ==> Last(lines) != ""
    ensures SplitLines(Join(lines, "\n")) == lines
  {
    if |lines| == 1 {
      SingleLine(lines[0]);
    } else if lines != [] {
      LinesRoundTrip(lines[1..]);
      SplitJoined(lines[0], lines[1..]);
      assert lines == [lines[0]] + lines[1..];
    }
  }
}
