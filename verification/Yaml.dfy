// The fallback YAML loader: a comment stripper over flags, a scalar reader, and an
// indentation-driven descent whose functions share one cursor.
module Yaml {
  import opened PythonText
  import opened PythonLiteral
  import opened Wrappers

  const HASH: Code := '#' as int
  const DASH: Code := '-' as int
  const COLON: Code := ':' as int

  datatype Value =
    | Null
    | Bool(flag: bool)
    | Int(number: int)
    | String(text: Str)
    | Evaluated(source: Str)    // what Python makes of a literal outside the single-string form
    | Map(entries: seq<Entry>)  // a dict, in insertion order
    | List(items: seq<Value>)

  datatype Entry = Entry(key: Str, value: Value)

  datatype Error =
    | TabsUnsupported(line: nat)
    | UnexpectedIndent(content: Str)
    | InvalidEntry(content: Str)
    | TrailingContent

  // ---------------------------------------------------------------- comments

  datatype Quoting = Quoting(single: bool, double: bool, escaped: bool) {
    function Next(c: Code): Quoting {
      if escaped then this.(escaped := false)
      else if c == BACKSLASH && double then this.(escaped := true)
      else if c == APOSTROPHE && !double then this.(single := !single)
      else if c == QUOTE && !single then this.(double := !double)
      else this
    }
  }

  const UNQUOTED := Quoting(false, false, false)

  // A '#' outside quotes, first on its line or after white space.
  predicate OpensComment(line: Str, i: nat, q: Quoting)
    requires i < |line|
  {
    line[i] == HASH && q == UNQUOTED && (i == 0 || IsSpace(line[i - 1]))
  }

  // Where the comment starts; |line| when there is none.
  function CommentAt(line: Str, i: nat, q: Quoting): (r: nat)
    requires i <= |line|
    ensures i <= r <= |line|
    decreases |line| - i
  {
    if i == |line| || OpensComment(line, i, q) then i else CommentAt(line, i + 1, q.Next(line[i]))
  }

  function WithoutComment(line: Str): Str {
    RStrip(line[..CommentAt(line, 0, UNQUOTED)])
  }

  // _strip_inline_comment
  method StripInlineComment(line: Str) returns (stripped: Str)
    ensures stripped == WithoutComment(line)
  {
    var inSingle, inDouble, escaped := false, false, false;
    for i := 0 to |line|
      invariant CommentAt(line, 0, UNQUOTED) == CommentAt(line, i, Quoting(inSingle, inDouble, escaped))
      invariant escaped ==> inDouble
    {
      var ch := line[i];
      if escaped {
        escaped := false;
        continue;
      }
      if ch == BACKSLASH && inDouble {
        escaped := true;
        continue;
      }
      if ch == APOSTROPHE && !inDouble {
        inSingle := !inSingle;
        continue;
      }
      if ch == QUOTE && !inSingle {
        inDouble := !inDouble;
        continue;
      }
      if ch == HASH && !inSingle && !inDouble {
        if i == 0 || IsSpace(line[i - 1]) {
          return RStrip(line[..i]);
        }
      }
    }
    assert line[..|line|] == line;
    return RStrip(line);
  }

  // ---------------------------------------------------------------- scalars

  function LowerChar(c: Code): Code {
    if 'A' as int <= c <= 'Z' as int then c + 32 else c
  }

  function Lower(s: Str): Str {
    seq(|s|, i requires 0 <= i < |s| => LowerChar(s[i]))
  }

  predicate IsDigit(c: Code) { '0' as int <= c <= '9' as int }

  predicate Digits(s: Str) {
    s != [] && forall i :: 0 <= i < |s| ==> IsDigit(s[i])
  }

  function DigitValue(c: Code): nat
    requires IsDigit(c)
  {
    c - '0' as int
  }

  function Natural(s: Str): nat
    requires forall i :: 0 <= i < |s| ==> IsDigit(s[i])
  {
    if s == [] then 0
    else
      assert IsDigit(s[|s| - 1]);
      var high, low: nat := Natural(s[..|s| - 1]), DigitValue(s[|s| - 1]);
      10 * high + low
  }

  // -?\d+
  predicate Integer(s: Str) {
    Digits(s) || (s != [] && s[0] == DASH && Digits(s[1..]))
  }

  predicate Quoted(s: Str) {
    s != [] && s[|s| - 1] == s[0] && (s[0] == QUOTE || s[0] == APOSTROPHE)
  }

  // text[1:-1]
  function Inner(s: Str): Str {
    if |s| < 2 then [] else s[1..|s| - 1]
  }

  const NULL := Ascii("null")
  const TILDE := Ascii("~")
  const TRUE := Ascii("true")
  const FALSE := Ascii("false")

  // _parse_scalar
  function Scalar(raw: Str): Value {
    var text := Strip(raw);
    var lowered := Lower(text);
    if text == [] then String([])
    else if lowered == NULL || lowered == TILDE then Null
    else if lowered == TRUE then Bool(true)
    else if lowered == FALSE then Bool(false)
    else if Digits(text) then Int(Natural(text))
    else if Integer(text) then Int(-(Natural(text[1..]) as int))
    else if Quoted(text) then
      match LiteralRest(text[1..], text[0])
      case Text(s) => String(s)
      case Invalid => String(Inner(text))
      case Other => Evaluated(text)
    else String(text)
  }

  predicate IsKeyChar(c: Code) {
    || 'A' as int <= c <= 'Z' as int || 'a' as int <= c <= 'z' as int || IsDigit(c)
    || c == '_' as int || c == '.' as int || c == DASH
  }

  function KeyRun(s: Str): (n: nat)
    ensures n <= |s|
    ensures forall i :: 0 <= i < n ==> IsKeyChar(s[i])
    ensures n < |s| ==> !IsKeyChar(s[n])
  {
    if s != [] && IsKeyChar(s[0]) then 1 + KeyRun(s[1..]) else 0
  }

  datatype Inline = Inline(key: Str, value: Option<Value>)

  // _parse_inline_mapping_entry, on text without line breaks
  function InlineEntry(text: Str): Option<Inline> {
    var n := KeyRun(text);
    if n == 0 || n == |text| || text[n] != COLON then None
    else
      var remainder := text[n + 1..];
      Some(Inline(text[..n], if BlankStr(remainder) then None else Some(Scalar(Strip(remainder)))))
  }

  // ---------------------------------------------------------------- tokens

  datatype Token = Token(indent: nat, content: Str) {
    predicate Item() {
      |content| >= 2 && content[0] == DASH && content[1] == SPACE
    }
  }

  function TokenOf(stripped: Str): Token {
    var n := Indent(stripped);
    Token(n, stripped[n..])
  }

  // The tokens of lines[from..].
  function Tokens(lines: seq<Str>, from: nat := 0): Result<seq<Token>, Error>
    requires from <= |lines|
    decreases |lines| - from
  {
    if from == |lines| then Ok([])
    else if TAB in lines[from] then Err(TabsUnsupported(from + 1))
    else
      var stripped := WithoutComment(lines[from]);
      match Tokens(lines, from + 1)
      case Err(e) => Err(e)
      case Ok(rest) => Ok(if BlankStr(stripped) then rest else [TokenOf(stripped)] + rest)
  }

  method Lex(text: Str) returns (r: Result<seq<Token>, Error>)
    ensures r == Tokens(SplitLines(text))
  {
    var lines := SplitLines(text);
    var tokens: seq<Token> := [];
    JoinedNothing(Tokens(lines));
    for i := 0 to |lines|
      invariant Tokens(lines) == Joined(tokens, Tokens(lines, i))
    {
      if TAB in lines[i] {
        return Err(TabsUnsupported(i + 1));
      }
      var stripped := StripInlineComment(lines[i]);
      if BlankStr(stripped) {
        continue;
      }
      ghost var rest := Tokens(lines, i + 1);
      if rest.Ok? {
        assert tokens + ([TokenOf(stripped)] + rest.value) == tokens + [TokenOf(stripped)] + rest.value;
      }
      tokens := tokens + [TokenOf(stripped)];
    }
    assert tokens + [] == tokens;
    return Ok(tokens);
  }

  function Joined(before: seq<Token>, rest: Result<seq<Token>, Error>): Result<seq<Token>, Error> {
    match rest
    case Err(e) => Err(e)
    case Ok(tokens) => Ok(before + tokens)
  }

  lemma JoinedNothing(rest: Result<seq<Token>, Error>)
    ensures Joined([], rest) == rest
  {
    if rest.Ok? {
      assert [] + rest.value == rest.value;
    }
  }

  // ---------------------------------------------------------------- the descent, as functions

  // d[key] = value
  function Assigned(d: seq<Entry>, key: Str, value: Value): seq<Entry> {
    if d == [] then [Entry(key, value)]
    else if d[0].key == key then [Entry(key, value)] + d[1..]
    else [d[0]] + Assigned(d[1..], key, value)
  }

  // d.update(extra)
  function Updated(d: seq<Entry>, extra: seq<Entry>): seq<Entry>
    decreases extra
  {
    if extra == [] then d else Updated(Assigned(d, extra[0].key, extra[0].value), extra[1..])
  }

  // A parsed value and the cursor after it.
  type Parsed = Result<(Value, nat), Error>

  predicate Reaches(r: Parsed, ts: seq<Token>, from: nat) {
    r.Ok? ==> from <= r.value.1 <= |ts|
  }

  function ChildBlock(ts: seq<Token>, i: nat, parent: nat): (r: Parsed)
    requires i <= |ts|
    ensures Reaches(r, ts, i)
    decreases |ts| - i, 2
  {
    if i == |ts| || ts[i].indent < parent then Ok((Map([]), i))
    else if ts[i].Item() then ListFrom(ts, i, ts[i].indent, [])
    else if ts[i].indent == parent then Ok((Map([]), i))
    else Block(ts, i, ts[i].indent)
  }

  function Block(ts: seq<Token>, i: nat, expected: nat): (r: Parsed)
    requires i <= |ts|
    ensures Reaches(r, ts, i)
    decreases |ts| - i, 1
  {
    if i == |ts| || ts[i].indent < expected then Ok((Map([]), i))
    else if ts[i].Item() then ListFrom(ts, i, expected, [])
    else MappingFrom(ts, i, expected, [])
  }

  function MappingFrom(ts: seq<Token>, i: nat, expected: nat, result: seq<Entry>): (r: Parsed)
    requires i <= |ts|
    ensures Reaches(r, ts, i)
    decreases |ts| - i, 0
  {
    if i == |ts| || ts[i].indent < expected then Ok((Map(result), i))
    else if ts[i].indent > expected then Err(UnexpectedIndent(ts[i].content))
    else if ts[i].Item() then Ok((Map(result), i))
    else
      var parsed := InlineEntry(ts[i].content);
      if parsed.None? then Err(InvalidEntry(ts[i].content))
      else if parsed.value.value.Some? then
        MappingFrom(ts, i + 1, expected, Assigned(result, parsed.value.key, parsed.value.value.value))
      else
        match ChildBlock(ts, i + 1, expected)
        case Err(e) => Err(e)
        case Ok((child, j)) => MappingFrom(ts, j, expected, Assigned(result, parsed.value.key, child))
  }

  function ListFrom(ts: seq<Token>, i: nat, expected: nat, items: seq<Value>): (r: Parsed)
    requires i <= |ts|
    ensures Reaches(r, ts, i)
    decreases |ts| - i, 0
  {
    if i == |ts| || ts[i].indent < expected then Ok((List(items), i))
    else if ts[i].indent > expected then Err(UnexpectedIndent(ts[i].content))
    else if !ts[i].Item() then Ok((List(items), i))
    else
      match Item(ts, i, expected)
      case Err(e) => Err(e)
      case Ok((item, j)) => ListFrom(ts, j, expected, items + [item])
  }

  // Does a deeper block follow a list item?
  predicate Deeper(ts: seq<Token>, i: nat, expected: nat) {
    i < |ts| && ts[i].indent >= expected + 2
  }

  function Item(ts: seq<Token>, i: nat, expected: nat): (r: Parsed)
    requires i < |ts| && ts[i].Item()
    ensures Reaches(r, ts, i + 1)
    decreases |ts| - i - 1, 3
  {
    var rest := Strip(ts[i].content[2..]);
    if rest == [] then Block(ts, i + 1, expected + 2)
    else
      var parsed := InlineEntry(rest);
      if parsed.None? then Ok((Scalar(rest), i + 1))
      else if !Deeper(ts, i + 1, expected) then
        Ok((Map([Entry(parsed.value.key, if parsed.value.value.Some? then parsed.value.value.value else Map([]))]), i + 1))
      else
        match Block(ts, i + 1, ts[i + 1].indent)
        case Err(e) => Err(e)
        case Ok((extra, j)) =>
          if parsed.value.value.None? then Ok((Map([Entry(parsed.value.key, extra)]), j))
          else
            // extra entries join the item; an extra list is dropped
            var first := [Entry(parsed.value.key, parsed.value.value.value)];
            Ok((Map(if extra.Map? then Updated(first, extra.entries) else first), j))
  }

  // _fallback_load_yaml
  function Load(text: Str): Result<Value, Error> {
    match Tokens(SplitLines(text))
    case Err(e) => Err(e)
    case Ok(ts) => Payload(ts)
  }

  function Payload(ts: seq<Token>): Result<Value, Error> {
    match Block(ts, 0, 0)
    case Err(e) => Err(e)
    case Ok((payload, j)) => if j == |ts| then Ok(payload) else Err(TrailingContent)
  }
}
