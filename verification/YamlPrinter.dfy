// Trees printed in the 2-space block style the loader reads, and what one printed line
// lexes and parses back to.
module YamlPrinter {
  import opened PythonText
  import opened PythonLiteral
  import opened Wrappers
  import opened Yaml

  // ---------------------------------------------------------------- scalars

  function Decimal(n: nat): Str {
    (if n < 10 then [] else Decimal(n / 10)) + ['0' as int + n % 10]
  }

  predicate IsScalar(v: Value) {
    v.Null? || v.Bool? || v.Int? || v.String?
  }

  function ScalarText(v: Value): Str
    requires IsScalar(v)
  {
    match v
    case Null => NULL
    case Bool(flag) => if flag then TRUE else FALSE
    case Int(n) => if n < 0 then [DASH] + Decimal(-n) else Decimal(n)
    case String(s) => JsonString(s)
  }

  // The value with each character outside the Basic Multilingual Plane as two surrogates.
  function NarrowScalar(v: Value): Value
    requires IsScalar(v)
  {
    if v.String? then String(Utf16(v.text)) else v
  }

  lemma DigitAppends(s: Str, d: nat)
    requires d < 10 && (s == [] || Digits(s))
    ensures var c := '0' as int + d; Digits(s + [c]) && Natural(s + [c]) == 10 * Natural(s) + d
  {
    var c := '0' as int + d;
    assert (s + [c])[..|s|] == s;
    assert forall i :: 0 <= i < |s| ==> (s + [c])[i] == s[i];
  }

  lemma {:induction false} DecimalReads(n: nat)
    ensures Digits(Decimal(n)) && Natural(Decimal(n)) == n
  {
    hide Digits, Natural;
    if n < 10 {
      DigitAppends([], n);
      NaturalOfNone();
      assert Decimal(n) == [] + ['0' as int + n];
    } else {
      DecimalReads(n / 10);
      DigitAppends(Decimal(n / 10), n % 10);
    }
  }

  lemma NaturalOfNone()
    ensures Natural([]) == 0
  {
  }

  lemma KeyRunOfAll(s: Str)
    requires forall i :: 0 <= i < |s| ==> IsKeyChar(s[i])
    ensures KeyRun(s) == |s|
  {
  }

  lemma LowerFirst(s: Str)
    requires s != [] && !('a' as int <= LowerChar(s[0]) <= 'z' as int) && s[0] != '~' as int
    ensures Lower(s) != NULL && Lower(s) != TILDE && Lower(s) != TRUE && Lower(s) != FALSE
  {
    assert Lower(s)[0] == LowerChar(s[0]);
    assert NULL[0] == 'n' as int && TILDE[0] == '~' as int && TRUE[0] == 't' as int && FALSE[0] == 'f' as int;
  }

  lemma WordsSpelled()
    ensures NULL[0] == 'n' as int && TILDE[0] == '~' as int && TRUE[0] == 't' as int && FALSE[0] == 'f' as int
    ensures Lower(NULL) == NULL && Lower(TRUE) == TRUE && Lower(FALSE) == FALSE
    ensures forall word, i :: word in {NULL, TRUE, FALSE} && 0 <= i < |word| ==> IsKeyChar(word[i])
  {
  }

  lemma WordReads(word: Str, v: Value)
    requires (word, v) == (NULL, Null) || (word, v) == (TRUE, Bool(true)) || (word, v) == (FALSE, Bool(false))
    ensures Scalar(word) == v
    ensures InlineEntry(word) == None
  {
    WordsSpelled();
    StripKeeps(word);
    KeyRunOfAll(word);
    hide Strip, KeyRun;
  }

  lemma NumeralReads(text: Str, ds: Str)
    requires Digits(ds) && (text == ds || text == [DASH] + ds)
    ensures Scalar(text) == Int(if text == ds then Natural(ds) else -(Natural(ds) as int))
    ensures InlineEntry(text) == None
  {
    hide Natural, LiteralRest;
    assert text == ds || text[1..] == ds;
    assert forall i :: 0 <= i < |text| ==> IsDigit(text[i]) || text[i] == DASH;
    StripKeeps(text);
    LowerFirst(text);
    KeyRunOfAll(text);
    if text != ds {
      assert !IsDigit(text[0]);
    }
    hide Strip, Lower, KeyRun;
  }

  lemma IntegerReads(n: int)
    ensures Scalar(ScalarText(Int(n))) == Int(n)
    ensures InlineEntry(ScalarText(Int(n))) == None
  {
    hide Decimal, Natural, Scalar, InlineEntry, Digits;
    var m: nat := if n < 0 then -n else n;
    DecimalReads(m);
    var text := ScalarText(Int(n));
    if n < 0 {
      DashIsNoDigit(Decimal(m));
    }
    NumeralReads(text, Decimal(m));
  }

  lemma DashIsNoDigit(ds: Str)
    requires Digits(ds)
    ensures [DASH] + ds != ds
  {
    assert |[DASH] + ds| == |ds| + 1;
  }

  lemma StringReads(s: Str)
    ensures Scalar(JsonString(s)) == String(Utf16(s))
    ensures InlineEntry(JsonString(s)) == None
  {
    var text := JsonString(s);
    JsonStringEvaluates(s);
    assert text[0] == QUOTE && text[|text| - 1] == QUOTE;
    hide JsonString, LiteralRest, Utf16;
    StripKeeps(text);
    LowerFirst(text);
    assert !IsDigit(text[0]);
  }

  // A printed scalar reads back as itself, and never as a mapping entry.
  lemma ScalarReads(v: Value)
    requires IsScalar(v)
    ensures Scalar(ScalarText(v)) == NarrowScalar(v)
    ensures InlineEntry(ScalarText(v)) == None
  {
    match v
    case Null => WordReads(NULL, Null);
    case Bool(flag) => WordReads(if flag then TRUE else FALSE, v);
    case Int(n) => IntegerReads(n);
    case String(s) => StringReads(s);
  }

  // ---------------------------------------------------------------- clean lines

  // Characters the comment stripper and the line splitter pass over.
  predicate Ordinary(c: Code) {
    ' ' as int <= c <= '~' as int && c != HASH && c != QUOTE && c != APOSTROPHE
  }

  lemma {:induction false} WalkOrdinary(line: Str, i: nat, j: nat)
    requires i <= j <= |line| && forall k :: i <= k < j ==> Ordinary(line[k])
    ensures CommentAt(line, i, UNQUOTED) == CommentAt(line, j, UNQUOTED)
    decreases j - i
  {
    if i < j {
      WalkOrdinary(line, i + 1, j);
    }
  }

  const INSIDE := Quoting(false, true, false)

  predicate Printable(s: Str) {
    forall i :: 0 <= i < |s| ==> ' ' as int <= s[i] <= '~' as int
  }

  lemma WalkEscape(line: Str, i: nat, s: Str)
    requires |s| >= 2 && s[0] == BACKSLASH && i + |s| <= |line| && line[i..i + |s|] == s
    requires forall k :: 2 <= k < |s| ==> s[k] != BACKSLASH && s[k] != QUOTE
    ensures CommentAt(line, i, INSIDE) == CommentAt(line, i + |s|, INSIDE)
  {
    assert line[i] == s[0] && line[i + 1] == s[1];
    assert CommentAt(line, i, INSIDE) == CommentAt(line, i + 1, INSIDE.(escaped := true));
    assert CommentAt(line, i, INSIDE) == CommentAt(line, i + 2, INSIDE);
    WalkInside(line, i + 2, i + |s|);
  }

  lemma {:induction false} WalkInside(line: Str, i: nat, j: nat)
    requires i <= j <= |line| && forall k :: i <= k < j ==> line[k] != BACKSLASH && line[k] != QUOTE
    ensures CommentAt(line, i, INSIDE) == CommentAt(line, j, INSIDE)
    decreases j - i
  {
    if i < j {
      WalkInside(line, i + 1, j);
    }
  }

  lemma UnicodeEscapeIsPlain(n: nat)
    requires n < 0x10000
    ensures Printable(UnicodeEscape(n)) && |UnicodeEscape(n)| == 6 && UnicodeEscape(n)[0] == BACKSLASH
    ensures forall k :: 2 <= k < 6 ==> UnicodeEscape(n)[k] != BACKSLASH && UnicodeEscape(n)[k] != QUOTE
  {
  }

  lemma WalkJsonChar(line: Str, i: nat, c: Code)
    requires i + |JsonChar(c)| <= |line| && line[i..i + |JsonChar(c)|] == JsonChar(c)
    ensures Printable(JsonChar(c))
    ensures CommentAt(line, i, INSIDE) == CommentAt(line, i + |JsonChar(c)|, INSIDE)
  {
    hide Hex4;
    var s := JsonChar(c);
    if |s| == 1 {
      assert line[i] == s[0];
    } else if |s| == 2 {
      assert s[0] == BACKSLASH;
      WalkEscape(line, i, s);
    } else if InBmp(c) {
      UnicodeEscapeIsPlain(c);
      WalkEscape(line, i, s);
    } else {
      UnicodeEscapeIsPlain(High(c));
      UnicodeEscapeIsPlain(Low(c));
      assert line[i..i + 6] == s[..6] && line[i + 6..i + 12] == s[6..];
      WalkEscape(line, i, UnicodeEscape(High(c)));
      WalkEscape(line, i + 6, UnicodeEscape(Low(c)));
    }
  }

  lemma {:induction false} WalkJsonBody(line: Str, i: nat, s: Str)
    requires i + |JsonBody(s)| <= |line| && line[i..i + |JsonBody(s)|] == JsonBody(s)
    ensures Printable(JsonBody(s))
    ensures CommentAt(line, i, INSIDE) == CommentAt(line, i + |JsonBody(s)|, INSIDE)
    decreases s
  {
    hide JsonChar;
    if s != [] {
      var head, tail := JsonChar(s[0]), JsonBody(s[1..]);
      var all := line[i..i + |JsonBody(s)|];
      assert line[i..i + |head|] == all[..|head|] == head;
      assert line[i + |head|..i + |head| + |tail|] == all[|head|..] == tail;
      WalkJsonChar(line, i, s[0]);
      WalkJsonBody(line, i + |head|, s[1..]);
    }
  }

  // A text between two quotes, found in a line.
  lemma QuotedAt(line: Str, i: nat, q: Code, body: Str)
    requires i + |body| + 2 <= |line| && line[i..i + |body| + 2] == [q] + body + [q]
    ensures line[i] == q && line[i + 1 + |body|] == q && line[i + 1..i + 1 + |body|] == body
  {
    var part := line[i..i + |body| + 2];
    assert part[0] == q && part[1 + |body|] == q;
    assert forall k :: 0 <= k < |body| ==> line[i + 1..i + 1 + |body|][k] == part[k + 1] == body[k];
  }

  lemma JsonStringParts(s: Str)
    ensures JsonString(s) == [QUOTE] + JsonBody(s) + [QUOTE] && |JsonString(s)| == |JsonBody(s)| + 2
    ensures Printable(JsonBody(s)) ==> Printable(JsonString(s))
  {
    var body := JsonBody(s);
    QuotesArePrintable(body);
    assert JsonString(s) == [QUOTE] + body + [QUOTE];
    assert |[QUOTE] + body + [QUOTE]| == |body| + 2;
    hide JsonBody, JsonString, Printable;
  }

  lemma QuotesArePrintable(body: Str)
    ensures Printable(body) ==> Printable([QUOTE] + body + [QUOTE])
  {
  }

  lemma WalkString(line: Str, i: nat, s: Str)
    requires i + |JsonString(s)| <= |line| && line[i..i + |JsonString(s)|] == JsonString(s)
    ensures Printable(JsonString(s))
    ensures CommentAt(line, i, UNQUOTED) == CommentAt(line, i + |JsonString(s)|, UNQUOTED)
  {
    JsonStringParts(s);
    hide JsonBody, JsonString, CommentAt, Printable;
    var body := JsonBody(s);
    QuotedAt(line, i, QUOTE, body);
    WalkJsonBody(line, i + 1, s);
    QuotesToggle(line, i);
    QuotesToggle(line, i + 1 + |body|);
  }

  lemma QuotesToggle(line: Str, i: nat)
    requires i < |line| && line[i] == QUOTE
    ensures CommentAt(line, i, UNQUOTED) == CommentAt(line, i + 1, INSIDE)
    ensures CommentAt(line, i, INSIDE) == CommentAt(line, i + 1, UNQUOTED)
  {
    assert INSIDE.Next(QUOTE) == UNQUOTED && UNQUOTED.Next(QUOTE) == INSIDE;
  }

  lemma WalkScalar(line: Str, i: nat, v: Value)
    requires IsScalar(v) && i + |ScalarText(v)| <= |line| && line[i..i + |ScalarText(v)|] == ScalarText(v)
    ensures Printable(ScalarText(v)) && Tight(ScalarText(v))
    ensures CommentAt(line, i, UNQUOTED) == CommentAt(line, i + |ScalarText(v)|, UNQUOTED)
  {
    var text := ScalarText(v);
    if v.String? {
      WalkString(line, i, v.text);
    } else {
      WordIsOrdinary(v);
      assert forall k :: i <= k < i + |text| ==> line[k] == line[i..i + |text|][k - i];
      WalkOrdinary(line, i, i + |text|);
    }
  }

  lemma WordIsOrdinary(v: Value)
    requires v.Null? || v.Bool? || v.Int?
    ensures ScalarText(v) != [] && forall k :: 0 <= k < |ScalarText(v)| ==> IsKeyChar(ScalarText(v)[k])
  {
    if v.Int? {
      DecimalReads(if v.number < 0 then -v.number else v.number);
    }
  }

  // ---------------------------------------------------------------- other spellings

  predicate Tight(s: Str) {
    s != [] && !IsSpace(s[0]) && !IsSpace(s[|s| - 1])
  }

  // The word, each of its letters small or capital.
  predicate AnyCase(text: Str, word: Str) {
    |text| == |word| && forall i :: 0 <= i < |text| ==> text[i] == word[i] || text[i] + ('a' as int - 'A' as int) == word[i]
  }

  lemma LowerIsAnyCase(text: Str)
    ensures forall word :: word in {NULL, TRUE, FALSE} ==> (Lower(text) == word <==> AnyCase(text, word))
    ensures Lower(text) == TILDE <==> text == TILDE
  {
    WordsSpelled();
    forall word | word in {NULL, TRUE, FALSE}
      ensures Lower(text) == word <==> AnyCase(text, word)
    {
      assert forall i :: 0 <= i < |word| ==> 'a' as int <= word[i] <= 'z' as int;
      assert forall i :: 0 <= i < |text| ==> Lower(text)[i] == LowerChar(text[i]);
      if |text| == |word| {
        assert forall i :: 0 <= i < |text| ==>
            (LowerChar(text[i]) == word[i] <==> text[i] == word[i] || text[i] + ('a' as int - 'A' as int) == word[i]);
      }
    }
    if Lower(text) == TILDE {
      assert LowerChar(text[0]) == TILDE[0];
    }
  }

  // A string that may be written as it is.
  predicate Bare(s: Str) {
    && Tight(s) && (forall i :: 0 <= i < |s| ==> Ordinary(s[i]))
    && !AnyCase(s, NULL) && s != TILDE && !AnyCase(s, TRUE) && !AnyCase(s, FALSE)
    && !Integer(s)
  }

  // The texts that stand for a scalar besides its printed one: a word in any case, a tilde,
  // a number with leading zeros, a bare string, a string between apostrophes.
  predicate Spells(text: Str, v: Value) {
    match v
    case Null => AnyCase(text, NULL) || text == TILDE
    case Bool(flag) => AnyCase(text, if flag then TRUE else FALSE)
    case Int(n) =>
      || (Digits(text) && n == Natural(text))
      || (text != [] && text[0] == DASH && Digits(text[1..]) && n == -(Natural(text[1..]) as int))
    case String(s) =>
      (text == s && Bare(s)) || (text == [APOSTROPHE] + s + [APOSTROPHE] && Unescaped(s))
    case _ => false
  }

  lemma WordsInAnyCase(text: Str, word: Str)
    requires AnyCase(text, word) && word in {NULL, TRUE, FALSE}
    ensures Lower(text) == word
    ensures Tight(text) && forall i :: 0 <= i < |text| ==> Ordinary(text[i])
  {
    LowerIsAnyCase(text);
    assert |text| == |word| && |word| >= 4;
    forall i | 0 <= i < |text|
      ensures Ordinary(text[i]) && !IsSpace(text[i])
    {
      assert 'a' as int <= word[i] <= 'z' as int;
    }
  }

  lemma SpelledNumberReads(text: Str, n: int)
    requires Spells(text, Int(n))
    ensures Scalar(text) == Int(n) && Tight(text) && forall i :: 0 <= i < |text| ==> Ordinary(text[i])
  {
    var ds := if Digits(text) then text else text[1..];
    assert text == ds || text == [DASH] + ds;
    assert forall i :: 0 <= i < |text| ==> IsDigit(text[i]) || text[i] == DASH;
    if text != ds {
      DashIsNoDigit(ds);
    }
    hide Natural, Scalar;
    NumeralReads(text, ds);
  }

  lemma SpelledStringReads(text: Str, s: Str)
    requires Spells(text, String(s))
    ensures Scalar(text) == String(s) && Tight(text) && Printable(text) && AllBmp(s)
  {
    if text == s && Bare(s) {
      StripKeeps(text);
      hide Strip, Lower, LiteralRest, Natural;
    } else {
      assert text[0] == APOSTROPHE && text[|text| - 1] == APOSTROPHE && text[1..] == s + [APOSTROPHE];
      ApostrophesEvaluate(s);
      StripKeeps(text);
      LowerFirst(text);
      assert !IsDigit(text[0]);
      hide Strip, Lower, LiteralRest, Natural;
    }
  }

  lemma SpelledWordReads(text: Str, v: Value)
    requires (v.Null? || v.Bool?) && Spells(text, v)
    ensures Scalar(text) == v && Tight(text) && Printable(text)
  {
    WordsSpelled();
    if text != TILDE {
      WordsInAnyCase(text, if v.Null? then NULL else if v.flag then TRUE else FALSE);
    }
    StripKeeps(text);
    hide Strip, AnyCase;
  }

  // Whichever way a scalar is spelled, it is the scalar that is read.
  lemma SpelledReads(text: Str, v: Value)
    requires IsScalar(v) && Spells(text, v)
    ensures Scalar(text) == v && NarrowScalar(v) == v && Tight(text) && Printable(text)
  {
    match v
    case Null => SpelledWordReads(text, v);
    case Bool(flag) => SpelledWordReads(text, v);
    case Int(n) =>
      SpelledNumberReads(text, n);
      hide Scalar;
    case String(s) =>
      SpelledStringReads(text, s);
      Utf16IsIdentityExactly(s);
      hide Spells, Scalar, Utf16, Tight, Printable;
  }

  // A quoted text that is no literal, as one that ends in a backslash, is what stands between
  // its quotes.
  lemma BrokenQuoteReads(q: Code, s: Str)
    requires (q == QUOTE || q == APOSTROPHE) && LiteralRest(s + [q], q).Invalid?
    ensures Scalar([q] + s + [q]) == String(s)
  {
    var text := [q] + s + [q];
    assert text[0] == q && text[|text| - 1] == q && text[1..] == s + [q] && text[1..|text| - 1] == s;
    StripKeeps(text);
    LowerFirst(text);
    assert !IsDigit(text[0]);
    hide Strip, Lower, LiteralRest, Natural;
  }

  lemma {:induction false} TrailingBackslash(s: Str)
    requires Unescaped(s)
    ensures LiteralRest(s + [BACKSLASH] + [APOSTROPHE], APOSTROPHE).Invalid?
  {
    var t := s + [BACKSLASH] + [APOSTROPHE];
    if s == [] {
      assert t == [BACKSLASH, APOSTROPHE] && t[2..] == [];
    } else {
      TrailingBackslash(s[1..]);
      assert t[1..] == s[1..] + [BACKSLASH] + [APOSTROPHE];
    }
  }

  const BETWEEN := Quoting(true, false, false)

  lemma {:induction false} WalkBetween(line: Str, i: nat, j: nat)
    requires i <= j <= |line| && forall k :: i <= k < j ==> line[k] != APOSTROPHE
    ensures CommentAt(line, i, BETWEEN) == CommentAt(line, j, BETWEEN)
    decreases j - i
  {
    if i < j {
      assert BETWEEN.Next(line[i]) == BETWEEN;
      WalkBetween(line, i + 1, j);
    }
  }

  lemma ApostrophesToggle(line: Str, i: nat)
    requires i < |line| && line[i] == APOSTROPHE
    ensures CommentAt(line, i, UNQUOTED) == CommentAt(line, i + 1, BETWEEN)
    ensures CommentAt(line, i, BETWEEN) == CommentAt(line, i + 1, UNQUOTED)
  {
    assert BETWEEN.Next(APOSTROPHE) == UNQUOTED && UNQUOTED.Next(APOSTROPHE) == BETWEEN;
  }

  // Spelled without quotes, a scalar is made of ordinary characters.
  lemma SpelledIsOrdinary(text: Str, v: Value)
    requires IsScalar(v) && Spells(text, v)
    ensures (forall i :: 0 <= i < |text| ==> Ordinary(text[i]))
            || (v.String? && text == [APOSTROPHE] + v.text + [APOSTROPHE] && Unescaped(v.text))
  {
    if v.Int? {
      SpelledNumberReads(text, v.number);
    } else if (v.Null? && text != TILDE) || v.Bool? {
      WordsInAnyCase(text, if v.Null? then NULL else if v.flag then TRUE else FALSE);
    }
    hide Lower, Natural;
  }

  lemma WalkPlain(line: Str, i: nat, text: Str)
    requires i + |text| <= |line| && line[i..i + |text|] == text && forall x :: 0 <= x < |text| ==> Ordinary(text[x])
    ensures CommentAt(line, i, UNQUOTED) == CommentAt(line, i + |text|, UNQUOTED)
  {
    var part := line[i..i + |text|];
    assert forall k :: i <= k < i + |text| ==> line[k] == part[k - i];
    hide CommentAt;
    WalkOrdinary(line, i, i + |text|);
  }

  lemma WalkApostrophes(line: Str, i: nat, s: Str)
    requires i + |s| + 2 <= |line| && line[i..i + |s| + 2] == [APOSTROPHE] + s + [APOSTROPHE] && Unescaped(s)
    ensures CommentAt(line, i, UNQUOTED) == CommentAt(line, i + |s| + 2, UNQUOTED)
  {
    hide CommentAt;
    QuotedAt(line, i, APOSTROPHE, s);
    var part := line[i + 1..i + 1 + |s|];
    assert forall k :: i + 1 <= k < i + 1 + |s| ==> line[k] == part[k - i - 1];
    ApostrophesToggle(line, i);
    WalkBetween(line, i + 1, i + 1 + |s|);
    ApostrophesToggle(line, i + 1 + |s|);
  }

  lemma WalkSpelled(line: Str, i: nat, text: Str, v: Value)
    requires IsScalar(v) && Spells(text, v) && i + |text| <= |line| && line[i..i + |text|] == text
    ensures CommentAt(line, i, UNQUOTED) == CommentAt(line, i + |text|, UNQUOTED)
  {
    SpelledIsOrdinary(text, v);
    hide Spells, CommentAt, Ordinary, Unescaped;
    if forall x :: 0 <= x < |text| ==> Ordinary(text[x]) {
      WalkPlain(line, i, text);
    } else {
      WalkApostrophes(line, i, v.text);
    }
  }

  // ---------------------------------------------------------------- written scalars

  // The texts a scalar may be written as.
  predicate Written(text: Str, v: Value)
    requires IsScalar(v)
  {
    text == ScalarText(v) || Spells(text, v)
  }

  lemma WrittenReads(text: Str, v: Value)
    requires IsScalar(v) && Written(text, v)
    ensures Scalar(text) == NarrowScalar(v) && Tight(text) && Printable(text)
  {
    if text == ScalarText(v) {
      ScalarReads(v);
      assert text[0..|text|] == text;
      WalkScalar(text, 0, v);
    } else {
      SpelledReads(text, v);
    }
    hide ScalarText, Scalar, NarrowScalar, Spells, CommentAt, Tight, Printable;
  }

  lemma WalkWritten(line: Str, i: nat, text: Str, v: Value)
    requires IsScalar(v) && Written(text, v) && i + |text| <= |line| && line[i..i + |text|] == text
    ensures CommentAt(line, i, UNQUOTED) == CommentAt(line, i + |text|, UNQUOTED)
  {
    hide ScalarText, Spells, CommentAt, Tight, Printable;
    if text == ScalarText(v) {
      WalkScalar(line, i, v);
    } else {
      WalkSpelled(line, i, text, v);
    }
  }
}
