// String helpers with the meaning Go's `strings` and `unicode` packages give them.
module Text {
  import opened Wrappers

  // unicode.IsSpace
  predicate IsSpace(c: char) {
    var n := c as int;
    || 0x09 <= n <= 0x0D || n == 0x20 || n == 0x85 || n == 0xA0 || n == 0x1680
    || 0x2000 <= n <= 0x200A || n == 0x2028 || n == 0x2029 || n == 0x202F || n == 0x205F || n == 0x3000
  }

  function TrimLeft(s: string): string {
    if s != "" && IsSpace(s[0]) then TrimLeft(s[1..]) else s
  }

  function TrimRight(s: string): string {
    if s != "" && IsSpace(s[|s| - 1]) then TrimRight(s[..|s| - 1]) else s
  }

  // strings.TrimSpace
  function Trim(s: string): string {
    TrimRight(TrimLeft(s))
  }

  predicate Blank(s: string) {
    Trim(s) == ""
  }

  lemma {:induction false} LeftTrimmed(s: string) returns (n: nat)
    ensures n <= |s| && TrimLeft(s) == s[n..] && (n < |s| ==> !IsSpace(s[n]))
    ensures forall i :: 0 <= i < n ==> IsSpace(s[i])
  {
    n := 0;
    if s != "" && IsSpace(s[0]) {
      var m := LeftTrimmed(s[1..]);
      n := m + 1;
    }
  }

  lemma {:induction false} RightTrimmed(s: string) returns (n: nat)
    ensures n <= |s| && TrimRight(s) == s[..n] && (n > 0 ==> !IsSpace(s[n - 1]))
    ensures forall i :: n <= i < |s| ==> IsSpace(s[i])
  {
    n := |s|;
    if s != "" && IsSpace(s[|s| - 1]) {
      n := RightTrimmed(s[..|s| - 1]);
    }
  }

  // Trimming takes the outer space, all of it, and nothing else.
  lemma TrimIsExact(s: string) returns (i: nat, j: nat)
    ensures i <= j <= |s| && Trim(s) == s[i..j]
    ensures forall k :: 0 <= k < |s| && !(i <= k < j) ==> IsSpace(s[k])
    ensures i < j ==> !IsSpace(s[i]) && !IsSpace(s[j - 1])
  {
    i := LeftTrimmed(s);
    var rest := s[i..];
    var n := RightTrimmed(rest);
    j := i + n;
    assert forall k :: j <= k < |s| ==> s[k] == rest[k - i];
    if n > 0 {
      assert s[j - 1] == rest[n - 1];
    }
  }

  lemma {:induction false} KeepsFirst(s: string)
    requires s != "" && !IsSpace(s[0])
    ensures TrimRight(s) != ""
  {
    if IsSpace(s[|s| - 1]) {
      KeepsFirst(s[..|s| - 1]);
    }
  }

  lemma NotBlank(s: string)
    requires s != "" && !IsSpace(s[0])
    ensures !Blank(s)
  {
    KeepsFirst(s);
  }

  predicate IsAlphanumeric(c: char) {
    'A' <= c <= 'Z' || 'a' <= c <= 'z' || '0' <= c <= '9'
  }

  // tasks.IsOpaqueID: the pattern ^[A-Za-z0-9][A-Za-z0-9_-]{7,127}$ on the trimmed value
  predicate IsOpaqueId(value: string) {
    var s := Trim(value);
    && 8 <= |s| <= 128
    && IsAlphanumeric(s[0])
    && forall i :: 1 <= i < |s| ==> IsAlphanumeric(s[i]) || s[i] == '_' || s[i] == '-'
  }

  // Go's `<` on strings.
  predicate Less(a: string, b: string) {
    b != "" && (a == "" || a[0] < b[0] || (a[0] == b[0] && Less(a[1..], b[1..])))
  }

  // Of two strings the lesser is a proper prefix of the other, or has the lesser character
  // where they first differ.
  lemma {:induction false} LessIsExact(a: string, b: string)
    ensures Less(a, b) <==> a < b || exists k :: 0 <= k < |a| && k < |b| && a[..k] == b[..k] && a[k] < b[k]
  {
    if a != "" && b != "" {
      var c, d := a[1..], b[1..];
      LessIsExact(c, d);
      assert a == [a[0]] + c && b == [b[0]] + d;
      assert a[..0] == b[..0];
      forall k | 0 <= k < |c| && k < |d|
        ensures a[0] == b[0] ==> (a[..k + 1] == b[..k + 1] <==> c[..k] == d[..k])
      {
        assert a[..k + 1] == [a[0]] + c[..k] && b[..k + 1] == [b[0]] + d[..k];
        assert a[..k + 1][1..] == c[..k] && b[..k + 1][1..] == d[..k];
      }
      if Less(a, b) && a[0] == b[0] && !(c < d) {
        var k :| 0 <= k < |c| && k < |d| && c[..k] == d[..k] && c[k] < d[k];
        assert a[..k + 1] == b[..k + 1] && a[k + 1] < b[k + 1];
      }
      if k :| 0 <= k < |a| && k < |b| && a[..k] == b[..k] && a[k] < b[k] {
        if k > 0 {
          assert a[0] == a[..k][0] == b[..k][0] == b[0];
          assert c[k - 1] < d[k - 1] && a[..k - 1 + 1] == b[..k - 1 + 1];
        }
      }
    }
  }

  lemma {:induction false} LessIsTransitive(a: string, b: string, c: string)
    requires Less(a, b) && Less(b, c)
    ensures Less(a, c)
  {
    if a != "" && a[0] == b[0] && b[0] == c[0] {
      LessIsTransitive(a[1..], b[1..], c[1..]);
    }
  }

  lemma {:induction false} LessIsTotal(a: string, b: string)
    ensures a == b || Less(a, b) || Less(b, a)
  {
    if a != "" && b != "" && a[0] == b[0] {
      LessIsTotal(a[1..], b[1..]);
      assert a == [a[0]] + a[1..] && b == [b[0]] + b[1..];
    }
  }

  lemma {:induction false} LessIsAsymmetric(a: string, b: string)
    requires Less(a, b)
    ensures !Less(b, a) && a != b
  {
    if a != "" && a[0] == b[0] {
      LessIsAsymmetric(a[1..], b[1..]);
    }
  }

  // ---------------------------------------------------------------- splitting and joining

  predicate HasPrefix(s: string, prefix: string) {
    prefix <= s
  }

  function TrimPrefix(s: string, prefix: string): string {
    if prefix <= s then s[|prefix|..] else s
  }

  // Index of the first separator at or after `from`; |s| when there is none.
  function FirstOf(s: string, sep: char, from: nat := 0): (r: nat)
    requires from <= |s|
    ensures from <= r <= |s|
    ensures r < |s| ==> s[r] == sep
    ensures forall i :: from <= i < r ==> s[i] != sep
    decreases |s| - from
  {
    if from == |s| || s[from] == sep then from else FirstOf(s, sep, from + 1)
  }

  // strings.SplitN(s, sep, n); n == 0 stands for no limit
  function SplitN(s: string, sep: char, n: nat): (r: seq<string>)
    ensures r != []
  {
    var at := FirstOf(s, sep);
    if at == |s| || n == 1 then [s] else [s[..at]] + SplitN(s[at + 1..], sep, if n == 0 then 0 else n - 1)
  }

  // strings.Split(s, sep)
  function Split(s: string, sep: char): (r: seq<string>)
    ensures r != []
  {
    SplitN(s, sep, 0)
  }

  function JoinWith(parts: seq<string>, sep: char): string {
    if parts == [] then ""
    else if |parts| == 1 then parts[0]
    else parts[0] + [sep] + JoinWith(parts[1..], sep)
  }

  predicate Free(s: string, sep: char) {
    forall i :: 0 <= i < |s| ==> s[i] != sep
  }

  lemma FirstOfJoined(a: string, sep: char, rest: string)
    requires Free(a, sep)
    ensures FirstOf(a + [sep] + rest, sep) == |a|
    ensures (a + [sep] + rest)[..|a|] == a && (a + [sep] + rest)[|a| + 1..] == rest
  {
    var s := a + [sep] + rest;
    assert s[|a|] == sep;
    assert forall i :: 0 <= i < |a| ==> s[i] == a[i];
  }

  // Splitting undoes joining.
  lemma {:induction false} SplitJoined(parts: seq<string>, sep: char)
    requires parts != [] && forall i :: 0 <= i < |parts| ==> Free(parts[i], sep)
    ensures Split(JoinWith(parts, sep), sep) == parts
  {
    hide Free;
    if |parts| == 1 {
      FreeHasNone(parts[0], sep);
    } else {
      FirstOfJoined(parts[0], sep, JoinWith(parts[1..], sep));
      SplitJoined(parts[1..], sep);
    }
  }

  lemma FreeHasNone(s: string, sep: char)
    requires Free(s, sep)
    ensures FirstOf(s, sep) == |s|
  {
  }

  // A separator and a part without one add that part.
  lemma {:induction false} SplitAppended(s: string, sep: char, last: string)
    requires Free(last, sep)
    ensures Split(s + [sep] + last, sep) == Split(s, sep) + [last]
    decreases |s|
  {
    hide Free;
    var at := FirstOf(s, sep);
    FreeHasNone(last, sep);
    if at == |s| {
      NoneFirst(s, sep);
      FirstOfJoined(s, sep, last);
      assert SplitN(s + [sep] + last, sep, 0) == [s] + SplitN(last, sep, 0);
    } else {
      var rest := s[at + 1..];
      assert s == s[..at] + [sep] + rest;
      UpToFirst(s, sep);
      FirstOfJoined(s[..at], sep, rest + [sep] + last);
      assert s[..at] + [sep] + (rest + [sep] + last) == s + [sep] + last;
      SplitAppended(rest, sep, last);
      assert SplitN(s, sep, 0) == [s[..at]] + SplitN(rest, sep, 0);
      assert SplitN(s + [sep] + last, sep, 0) == [s[..at]] + SplitN(rest + [sep] + last, sep, 0);
    }
  }

  lemma NoneFirst(s: string, sep: char)
    requires FirstOf(s, sep) == |s|
    ensures Free(s, sep)
  {
  }

  lemma UpToFirst(s: string, sep: char)
    ensures Free(s[..FirstOf(s, sep)], sep)
  {
  }

  lemma {:induction false} TrimLeftShape(s: string)
    ensures |TrimLeft(s)| <= |s| && (TrimLeft(s) != "" ==> !IsSpace(TrimLeft(s)[0]))
  {
    if s != "" && IsSpace(s[0]) {
      TrimLeftShape(s[1..]);
    }
  }

  // strings.Fields
  function Fields(s: string): seq<string>
    decreases |s|
  {
    TrimLeftShape(s);
    var t := TrimLeft(s);
    var n := WordLength(t);
    if t == "" then [] else [t[..n]] + Fields(t[n..])
  }

  function WordLength(s: string): (n: nat)
    ensures n <= |s| && (s != "" && !IsSpace(s[0]) ==> n > 0)
    ensures forall i :: 0 <= i < n ==> !IsSpace(s[i])
    ensures n < |s| ==> IsSpace(s[n])
  {
    if s == "" || IsSpace(s[0]) then 0 else 1 + WordLength(s[1..])
  }

  // strconv.Atoi
  predicate AllDigits(s: string) {
    s != "" && forall i :: 0 <= i < |s| ==> '0' <= s[i] <= '9'
  }

  function DigitsValue(s: string): (n: int)
    requires forall i :: 0 <= i < |s| ==> '0' <= s[i] <= '9'
    ensures n >= 0
  {
    if s == "" then 0 else 10 * DigitsValue(s[..|s| - 1]) + (s[|s| - 1] as int - '0' as int)
  }

  function Atoi(s: string): Option<int> {
    var digits := if s != "" && (s[0] == '-' || s[0] == '+') then s[1..] else s;
    if !AllDigits(digits) then None
    else
      var n := if s[0] == '-' then -DigitsValue(digits) else DigitsValue(digits);
      if -0x8000_0000_0000_0000 <= n < 0x8000_0000_0000_0000 then Some(n) else None
  }

  function Numeral(n: nat): string {
    (if n < 10 then "" else Numeral(n / 10)) + [('0' as int + n % 10) as char]
  }

  lemma {:induction false} NumeralReads(n: nat)
    ensures AllDigits(Numeral(n)) && DigitsValue(Numeral(n)) == n
  {
    if n >= 10 {
      NumeralReads(n / 10);
    }
    var high, s := if n < 10 then "" else Numeral(n / 10), Numeral(n);
    assert s[..|s| - 1] == high && s[|s| - 1] as int == '0' as int + n % 10;
    DigitsAppend(high, s[|s| - 1]);
    assert DigitsValue("") == 0;
  }

  lemma DigitsAppend(s: string, c: char)
    requires (s == "" || AllDigits(s)) && '0' <= c <= '9'
    ensures AllDigits(s + [c]) && DigitsValue(s + [c]) == 10 * DigitsValue(s) + (c as int - '0' as int)
  {
    assert (s + [c])[..|s|] == s;
  }

  const INT_LIMIT := 0x8000_0000_0000_0000

  lemma DigitsRead(digits: string)
    requires AllDigits(digits)
    ensures Atoi(digits) == if DigitsValue(digits) < INT_LIMIT then Some(DigitsValue(digits)) else None
    ensures Atoi("+" + digits) == if DigitsValue(digits) < INT_LIMIT then Some(DigitsValue(digits)) else None
    ensures Atoi("-" + digits) == if DigitsValue(digits) <= INT_LIMIT then Some(-DigitsValue(digits)) else None
  {
    hide DigitsValue;
    assert digits[0] != '-' && digits[0] != '+';
    assert ("+" + digits)[1..] == digits && ("-" + digits)[1..] == digits;
  }

  // A printed number, with or without its sign, is read as itself as far as the machine
  // integer goes, and not at all beyond.
  lemma AtoiReads(n: nat)
    ensures var m: int := n;
            && Atoi(Numeral(n)) == (if m < INT_LIMIT then Some(m) else None)
            && Atoi("+" + Numeral(n)) == (if m < INT_LIMIT then Some(m) else None)
            && Atoi("-" + Numeral(n)) == (if m <= INT_LIMIT then Some(-m) else None)
  {
    hide *;
    NumeralReads(n);
    DigitsRead(Numeral(n));
  }

  lemma NumeralHasNoSpace(n: nat)
    ensures Numeral(n) != "" && forall i :: 0 <= i < |Numeral(n)| ==> !IsSpace(Numeral(n)[i])
    ensures !Blank(Numeral(n)) && !Blank("-" + Numeral(n))
  {
    NumeralReads(n);
    var s := Numeral(n);
    hide Numeral, DigitsValue, Blank;
    assert forall i :: 0 <= i < |s| ==> '0' <= s[i] <= '9';
    NotBlank(s);
    NotBlank("-" + s);
  }
}
