// Python strings as sequences of code points, surrogates included.
module PythonText {

  type Code = n: int | 0 <= n < 0x110000

  type Str = seq<Code>

  const TAB: Code := 0x09
  const NEWLINE: Code := 0x0A
  const RETURN: Code := 0x0D
  const SPACE: Code := 0x20

  function Ascii(s: string): (r: Str)
    requires forall i :: 0 <= i < |s| ==> s[i] as int < 0x80
    ensures |r| == |s|
  {
    seq(|s|, i requires 0 <= i < |s| => s[i] as int)
  }

  // str.isspace on one character
  predicate IsSpace(c: Code) {
    || 0x09 <= c <= 0x0D || 0x1C <= c <= 0x20 || c == 0x85 || c == 0xA0 || c == 0x1680
    || 0x2000 <= c <= 0x200A || c == 0x2028 || c == 0x2029 || c == 0x202F || c == 0x205F || c == 0x3000
  }

  // The characters str.splitlines breaks at.
  predicate IsBreak(c: Code) {
    0x0A <= c <= 0x0D || 0x1C <= c <= 0x1E || c == 0x85 || c == 0x2028 || c == 0x2029
  }

  function RStrip(s: Str): (r: Str)
    ensures r <= s
  {
    if s != [] && IsSpace(s[|s| - 1]) then RStrip(s[..|s| - 1]) else s
  }

  function LStrip(s: Str): Str {
    if s != [] && IsSpace(s[0]) then LStrip(s[1..]) else s
  }

  function Strip(s: Str): Str {
    RStrip(LStrip(s))
  }

  predicate BlankStr(s: Str) {
    Strip(s) == []
  }

  // Number of leading spaces: what lstrip(" ") removes.
  function Indent(s: Str): (n: nat)
    ensures n <= |s|
    ensures forall i :: 0 <= i < n ==> s[i] == SPACE
    ensures n < |s| ==> s[n] != SPACE
  {
    if s != [] && s[0] == SPACE then 1 + Indent(s[1..]) else 0
  }

  function Spaces(n: nat): Str {
    seq(n, _ => SPACE)
  }

  function FirstBreak(s: Str, from: nat := 0): (r: nat)
    requires from <= |s|
    ensures from <= r <= |s|
    ensures r < |s| ==> IsBreak(s[r])
    ensures forall i :: from <= i < r ==> !IsBreak(s[i])
    decreases |s| - from
  {
    if from == |s| || IsBreak(s[from]) then from else FirstBreak(s, from + 1)
  }

  // str.splitlines()
  function SplitLines(s: Str): seq<Str> {
    var at := FirstBreak(s);
    if s == [] then []
    else if at == |s| then [s]
    else
      var width := if s[at] == RETURN && at + 1 < |s| && s[at + 1] == NEWLINE then 2 else 1;
      [s[..at]] + SplitLines(s[at + width..])
  }

  // "\n".join(lines) + "\n"
  function JoinLines(lines: seq<Str>): Str {
    if lines == [] then [] else JoinLines(lines[..|lines| - 1]) + lines[|lines| - 1] + [NEWLINE]
  }

  predicate OneLine(s: Str) {
    forall i :: 0 <= i < |s| ==> !IsBreak(s[i])
  }

  lemma SplitFirst(line: Str, rest: Str)
    requires OneLine(line)
    ensures SplitLines(line + [NEWLINE] + rest) == [line] + SplitLines(rest)
  {
    var s := line + [NEWLINE] + rest;
    assert s[|line|] == NEWLINE;
    assert forall i :: 0 <= i < |line| ==> s[i] == line[i];
    assert FirstBreak(s) == |line|;
    assert s[..|line|] == line && s[|line| + 1..] == rest;
  }

  lemma {:induction false} SplitSome(lines: seq<Str>, rest: Str)
    requires forall i :: 0 <= i < |lines| ==> OneLine(lines[i])
    ensures SplitLines(JoinLines(lines) + rest) == lines + SplitLines(rest)
  {
    hide SplitLines, OneLine;
    if lines == [] {
      assert JoinLines(lines) + rest == rest;
    } else {
      var init, last := lines[..|lines| - 1], lines[|lines| - 1];
      assert JoinLines(lines) + rest == JoinLines(init) + (last + [NEWLINE] + rest);
      SplitSome(init, last + [NEWLINE] + rest);
      SplitFirst(last, rest);
      assert lines + SplitLines(rest) == init + ([last] + SplitLines(rest));
    }
  }

  // Splitting undoes joining.
  lemma SplitJoined(lines: seq<Str>)
    requires forall i :: 0 <= i < |lines| ==> OneLine(lines[i])
    ensures SplitLines(JoinLines(lines)) == lines
  {
    SplitSome(lines, []);
    assert JoinLines(lines) + [] == JoinLines(lines);
  }

  lemma StripKeeps(s: Str)
    requires s != [] ==> !IsSpace(s[0]) && !IsSpace(s[|s| - 1])
    ensures Strip(s) == s && RStrip(s) == s
  {
  }

  lemma {:induction false} IndentOfLine(n: nat, content: Str)
    requires content != [] && content[0] != SPACE
    ensures Indent(Spaces(n) + content) == n
    ensures (Spaces(n) + content)[n..] == content
  {
    var s := Spaces(n) + content;
    assert s[n] == content[0];
    assert forall i :: 0 <= i < n ==> s[i] == SPACE;
  }
}
