// The quoted strings the repos-file writer emits and the loader evaluates: JSON escapes
// on one side, Python string literals on the other.
module PythonLiteral {
  import opened PythonText
  import opened Wrappers

  const QUOTE: Code := '"' as int
  const APOSTROPHE: Code := '\'' as int
  const BACKSLASH: Code := '\\' as int

  predicate InBmp(c: Code) { c < 0x10000 }

  predicate Surrogate(c: Code) { 0xD800 <= c < 0xE000 }

  predicate AllBmp(s: Str) {
    forall i :: 0 <= i < |s| ==> InBmp(s[i])
  }

  // ---------------------------------------------------------------- json.dumps

  function HexDigit(d: nat): Code
    requires d < 16
  {
    if d < 10 then '0' as int + d else 'a' as int + (d - 10)
  }

  function Hex4(n: nat): (r: Str)
    requires n < 0x10000
    ensures |r| == 4
  {
    [HexDigit(n / 16 / 16 / 16), HexDigit(n / 16 / 16 % 16), HexDigit(n / 16 % 16), HexDigit(n % 16)]
  }

  function UnicodeEscape(n: nat): Str
    requires n < 0x10000
  {
    [BACKSLASH, 'u' as int] + Hex4(n)
  }

  function High(c: Code): Code
    requires !InBmp(c)
  {
    0xD800 + (c - 0x10000) / 0x400
  }

  function Low(c: Code): Code
    requires !InBmp(c)
  {
    0xDC00 + (c - 0x10000) % 0x400
  }

  // One character under ensure_ascii.
  function JsonChar(c: Code): Str {
    if c == QUOTE || c == BACKSLASH then [BACKSLASH, c]
    else if ' ' as int <= c <= '~' as int then [c]
    else if c == 0x0A then [BACKSLASH, 'n' as int]
    else if c == 0x0D then [BACKSLASH, 'r' as int]
    else if c == 0x09 then [BACKSLASH, 't' as int]
    else if c == 0x0C then [BACKSLASH, 'f' as int]
    else if c == 0x08 then [BACKSLASH, 'b' as int]
    else if InBmp(c) then UnicodeEscape(c)
    else UnicodeEscape(High(c)) + UnicodeEscape(Low(c))
  }

  function JsonBody(s: Str): Str {
    if s == [] then [] else JsonChar(s[0]) + JsonBody(s[1..])
  }

  // json.dumps(value, ensure_ascii=True)
  function JsonString(s: Str): Str {
    [QUOTE] + JsonBody(s) + [QUOTE]
  }

  // ---------------------------------------------------------------- ast.literal_eval

  // A text that opens with a quote evaluates to a string, fails to evaluate, or leaves
  // the single-string form: it closes early, or names a character with \N.
  datatype Evaluation = Text(s: Str) | Invalid | Other

  function HexValue(c: Code): Option<nat> {
    if '0' as int <= c <= '9' as int then Some(c - '0' as int)
    else if 'a' as int <= c <= 'f' as int then Some(c - 'a' as int + 10)
    else if 'A' as int <= c <= 'F' as int then Some(c - 'A' as int + 10)
    else None
  }

  // The digits as one hexadecimal number.
  function HexNumber(ds: Str): Option<nat> {
    if ds == [] then Some(0)
    else
      var high, low := HexNumber(ds[..|ds| - 1]), HexValue(ds[|ds| - 1]);
      if high.None? || low.None? then None else Some(16 * high.value + low.value)
  }

  predicate IsOctal(c: Code) { '0' as int <= c <= '7' as int }

  function OctalRun(t: Str, most: nat): (n: nat)
    ensures n <= most && n <= |t|
    ensures forall i :: 0 <= i < n ==> IsOctal(t[i])
  {
    if most == 0 || t == [] || !IsOctal(t[0]) then 0 else 1 + OctalRun(t[1..], most - 1)
  }

  function OctalNumber(ds: Str): (n: nat)
    requires |ds| <= 3 && forall i :: 0 <= i < |ds| ==> IsOctal(ds[i])
    ensures n < (if |ds| == 0 then 1 else if |ds| == 1 then 8 else if |ds| == 2 then 64 else 512)
  {
    if ds == [] then 0
    else
      assert IsOctal(ds[|ds| - 1]);
      8 * OctalNumber(ds[..|ds| - 1]) + (ds[|ds| - 1] - '0' as int)
  }

  function SimpleEscape(c: Code): Option<Code> {
    if c == BACKSLASH || c == QUOTE || c == APOSTROPHE then Some(c)
    else if c == 'a' as int then Some(0x07)
    else if c == 'b' as int then Some(0x08)
    else if c == 'f' as int then Some(0x0C)
    else if c == 'n' as int then Some(0x0A)
    else if c == 'r' as int then Some(0x0D)
    else if c == 't' as int then Some(0x09)
    else if c == 'v' as int then Some(0x0B)
    else None
  }

  function HexWidth(c: Code): nat {
    if c == 'x' as int then 2 else if c == 'u' as int then 4 else if c == 'U' as int then 8 else 0
  }

  function Prepend(cs: Str, rest: Evaluation): Evaluation {
    if rest.Text? then Text(cs + rest.s) else rest
  }

  // The literal after its opening quote q.
  function LiteralRest(t: Str, q: Code): Evaluation {
    if t == [] then Invalid
    else if t[0] == q then (if |t| == 1 then Text([]) else Other)
    else if t[0] == 0 || t[0] == NEWLINE || t[0] == RETURN || Surrogate(t[0]) then Invalid
    else if t[0] != BACKSLASH then Prepend([t[0]], LiteralRest(t[1..], q))
    else if |t| == 1 then Invalid
    else if SimpleEscape(t[1]).Some? then Prepend([SimpleEscape(t[1]).value], LiteralRest(t[2..], q))
    else if HexWidth(t[1]) > 0 then
      var w := HexWidth(t[1]);
      if |t| < 2 + w then Invalid
      else
        var n := HexNumber(t[2..2 + w]);
        if n.None? || n.value >= 0x110000 then Invalid else Prepend([n.value], LiteralRest(t[2 + w..], q))
    else if t[1] == 'N' as int then Other
    else if IsOctal(t[1]) then
      var w := OctalRun(t[1..], 3);
      Prepend([OctalNumber(t[1..1 + w])], LiteralRest(t[1 + w..], q))
    else if t[1] == NEWLINE || t[1] == RETURN then LiteralRest(t[2..], q)
    else if t[1] == 0 || Surrogate(t[1]) then Invalid
    else Prepend([BACKSLASH, t[1]], LiteralRest(t[2..], q))
  }

  // ---------------------------------------------------------------- the round trip

  // JSON spells a character outside the Basic Multilingual Plane as two surrogates, and
  // a Python literal keeps them apart.
  function Utf16Char(c: Code): Str {
    if InBmp(c) then [c] else [High(c), Low(c)]
  }

  function Utf16(s: Str): Str {
    if s == [] then [] else Utf16Char(s[0]) + Utf16(s[1..])
  }

  lemma Hex4Decodes(n: nat)
    requires n < 0x10000
    ensures HexNumber(Hex4(n)) == Some(n)
  {
    var ds := Hex4(n);
    var a, b, c, d := n / 16 / 16 / 16, n / 16 / 16 % 16, n / 16 % 16, n % 16;
    DigitsJoin([], a, 0);
    DigitsJoin(ds[..1], b, a);
    DigitsJoin(ds[..2], c, 16 * a + b);
    DigitsJoin(ds[..3], d, 16 * (16 * a + b) + c);
    assert [] + [HexDigit(a)] == ds[..1] && ds[..1] + [HexDigit(b)] == ds[..2];
    assert ds[..2] + [HexDigit(c)] == ds[..3] && ds[..3] + [HexDigit(d)] == ds;
  }

  lemma DigitsJoin(ds: Str, d: nat, n: nat)
    requires d < 16
    ensures HexNumber(ds) == Some(n) ==> HexNumber(ds + [HexDigit(d)]) == Some(16 * n + d)
    ensures HexNumber([]) == Some(0)
  {
    assert (ds + [HexDigit(d)])[..|ds|] == ds;
  }

  lemma UnicodeEscapeDecodes(n: nat, rest: Str)
    requires n < 0x10000
    ensures LiteralRest(UnicodeEscape(n) + rest, QUOTE) == Prepend([n], LiteralRest(rest, QUOTE))
  {
    var t := UnicodeEscape(n) + rest;
    Hex4Decodes(n);
    assert t[2..6] == Hex4(n) && t[6..] == rest;
    hide Hex4, HexNumber;
  }

  lemma PrependTwice(a: Str, b: Str, e: Evaluation)
    ensures Prepend(a, Prepend(b, e)) == Prepend(a + b, e)
  {
    if e.Text? {
      assert a + (b + e.s) == a + b + e.s;
    }
  }

  lemma ShortCharDecodes(c: Code, rest: Str)
    requires |JsonChar(c)| <= 2
    ensures InBmp(c) && LiteralRest(JsonChar(c) + rest, QUOTE) == Prepend([c], LiteralRest(rest, QUOTE))
  {
    hide HexNumber, OctalNumber, OctalRun;
    var t := JsonChar(c) + rest;
    if ' ' as int <= c <= '~' as int && c != QUOTE && c != BACKSLASH {
      assert t[1..] == rest;
    } else {
      assert t[0] == BACKSLASH && t[2..] == rest;
      assert SimpleEscape(t[1]) == Some(c);
    }
  }

  lemma JsonCharDecodes(c: Code, rest: Str)
    ensures LiteralRest(JsonChar(c) + rest, QUOTE) == Prepend(Utf16Char(c), LiteralRest(rest, QUOTE))
  {
    hide LiteralRest;
    if |JsonChar(c)| <= 2 {
      ShortCharDecodes(c, rest);
    } else if InBmp(c) {
      UnicodeEscapeDecodes(c, rest);
    } else {
      var low := UnicodeEscape(Low(c)) + rest;
      assert JsonChar(c) + rest == UnicodeEscape(High(c)) + low;
      UnicodeEscapeDecodes(High(c), low);
      UnicodeEscapeDecodes(Low(c), rest);
      PrependTwice([High(c)], [Low(c)], LiteralRest(rest, QUOTE));
    }
  }

  lemma {:induction false} JsonBodyDecodes(s: Str)
    ensures LiteralRest(JsonBody(s) + [QUOTE], QUOTE) == Text(Utf16(s))
  {
    if s == [] {
      assert JsonBody(s) + [QUOTE] == [QUOTE];
    } else {
      assert JsonBody(s) + [QUOTE] == JsonChar(s[0]) + (JsonBody(s[1..]) + [QUOTE]);
      JsonCharDecodes(s[0], JsonBody(s[1..]) + [QUOTE]);
      JsonBodyDecodes(s[1..]);
    }
  }

  lemma {:induction false} Utf16IsIdentityExactly(s: Str)
    ensures |Utf16(s)| >= |s|
    ensures Utf16(s) == s <==> AllBmp(s)
  {
    if s != [] {
      Utf16IsIdentityExactly(s[1..]);
      if InBmp(s[0]) {
        assert s == [s[0]] + s[1..];
        assert Utf16(s)[1..] == Utf16(s[1..]);
        assert AllBmp(s) <==> AllBmp(s[1..]) by {
          assert forall i :: 0 <= i < |s[1..]| ==> s[1..][i] == s[i + 1];
        }
      }
    }
  }

  // What the writer prints evaluates to the value's UTF-16 form: to the value itself
  // exactly when it lies in the Basic Multilingual Plane.
  lemma JsonStringEvaluates(s: Str)
    ensures LiteralRest(JsonString(s)[1..], QUOTE) == Text(Utf16(s))
    ensures LiteralRest(JsonString(s)[1..], QUOTE) == Text(s) <==> AllBmp(s)
  {
    assert JsonString(s)[1..] == JsonBody(s) + [QUOTE];
    JsonBodyDecodes(s);
    Utf16IsIdentityExactly(s);
  }

  // Printable characters that need no escape between apostrophes.
  predicate Unescaped(s: Str) {
    forall i :: 0 <= i < |s| ==> ' ' as int <= s[i] <= '~' as int && s[i] != APOSTROPHE && s[i] != BACKSLASH
  }

  lemma {:induction false} ApostrophesEvaluate(s: Str)
    requires Unescaped(s)
    ensures LiteralRest(s + [APOSTROPHE], APOSTROPHE) == Text(s)
  {
    if s == [] {
      assert s + [APOSTROPHE] == [APOSTROPHE];
    } else {
      ApostrophesEvaluate(s[1..]);
      assert (s + [APOSTROPHE])[1..] == s[1..] + [APOSTROPHE];
      assert s == [s[0]] + s[1..];
    }
  }
}
