/** JavaScript string behaviour the model relies on: `String.prototype.trim`, `includes`,
    `join`/`split` on one separator character, and `String(n)` and `Number(s)` for integers. */
module Text {
  import opened Wrappers

  /** The characters `trim` removes: ECMAScript WhiteSpace and LineTerminator. */
  predicate IsJsSpace(c: char) {
    || c == ' ' || c == '\t' || c == '\n' || c == '\r'
    || c == '\U{000B}' || c == '\U{000C}' || c == '\U{00A0}' || c == '\U{1680}'
    || ('\U{2000}' <= c <= '\U{200A}')
    || c == '\U{2028}' || c == '\U{2029}' || c == '\U{202F}' || c == '\U{205F}'
    || c == '\U{3000}' || c == '\U{FEFF}'
  }

  predicate AllSpace(s: string) {
    forall i :: 0 <= i < |s| ==> IsJsSpace(s[i])
  }

  /** How many white-space characters `s` starts with. */
  function LeadingSpaces(s: string): (k: nat)
    ensures k <= |s| && AllSpace(s[..k])
    ensures k < |s| ==> !IsJsSpace(s[k])
  {
    if |s| > 0 && IsJsSpace(s[0]) then
      var k := 1 + LeadingSpaces(s[1..]);
      assert forall m :: 1 <= m < k ==> s[..k][m] == s[1..][..k - 1][m - 1];
      k
    else 0
  }

  /** How many white-space characters `s` ends with. */
  function TrailingSpaces(s: string): (k: nat)
    ensures k <= |s| && AllSpace(s[|s| - k..])
    ensures k < |s| ==> !IsJsSpace(s[|s| - k - 1])
  {
    if |s| > 0 && IsJsSpace(s[|s| - 1]) then
      var init := s[..|s| - 1];
      var j := TrailingSpaces(init);
      assert s[|s| - (j + 1)..] == init[|init| - j..] + [s[|s| - 1]];
      AllSpaceSnoc(init[|init| - j..], s[|s| - 1]);
      assert j < |init| ==> s[|s| - (j + 1) - 1] == init[|init| - j - 1];
      1 + j
    else 0
  }

  lemma AllSpaceSnoc(a: string, c: char)
    requires AllSpace(a) && IsJsSpace(c)
    ensures AllSpace(a + [c])
  {
    forall i | 0 <= i < |a| + 1 ensures IsJsSpace((a + [c])[i]) {
      if i < |a| {
        assert (a + [c])[i] == a[i];
      }
    }
  }

  /** `s.trim()`: `s` without its leading and trailing white space. */
  function Trim(s: string): (r: string)
    ensures |r| <= |s|
    ensures |r| > 0 ==> !IsJsSpace(r[0]) && !IsJsSpace(r[|r| - 1])
    ensures exists i, j :: 0 <= i <= j <= |s| && r == s[i..j] && AllSpace(s[..i]) && AllSpace(s[j..])
  {
    var i := LeadingSpaces(s);
    var t := s[i..];
    var k := TrailingSpaces(t);
    TrimSlice(s, i, k);
    t[..|t| - k]
  }

  /** Cutting `i` characters off the front and then `k` off the back is the slice `s[i..|s| - k]`. */
  lemma TrimSlice(s: string, i: nat, k: nat)
    requires i <= |s| && k <= |s| - i
    requires AllSpace(s[..i]) && AllSpace(s[i..][|s| - i - k..])
    ensures s[i..][..|s| - i - k] == s[i..|s| - k]
    ensures AllSpace(s[|s| - k..])
  {
    assert s[|s| - k..] == s[i..][|s| - i - k..];
  }

  /** A string trims to the empty string exactly when it is all white space. */
  lemma TrimEmptyIff(s: string)
    ensures Trim(s) == "" <==> AllSpace(s)
  {
    var i := LeadingSpaces(s);
    var t := s[i..];
    if i < |s| {
      var j := TrailingSpaces(t);
      assert |Trim(s)| == |t| - j;
    } else {
      assert s[..i] == s;
    }
  }

  lemma TrimOfNonSpaceEnds(s: string)
    requires |s| > 0 && !IsJsSpace(s[0]) && !IsJsSpace(s[|s| - 1])
    ensures Trim(s) == s
  {
  }

  /** `s.includes(sub)`. */
  predicate Contains(s: string, sub: string)
    decreases |s|
  {
    |sub| <= |s| && (s[..|sub|] == sub || Contains(s[1..], sub))
  }

  lemma {:induction false} ContainsAt(s: string, sub: string, i: nat)
    requires i + |sub| <= |s| && s[i..i + |sub|] == sub
    ensures Contains(s, sub)
  {
    if i > 0 {
      assert s[1..][i - 1..i - 1 + |sub|] == sub;
      ContainsAt(s[1..], sub, i - 1);
    }
  }

  /** A string that lacks the first character of `sub` does not contain `sub`. */
  lemma {:induction false} NotContainsWithoutFirst(s: string, sub: string)
    requires |sub| > 0 && sub[0] !in s
    ensures !Contains(s, sub)
  {
    if |sub| <= |s| {
      assert s[..|sub|][0] == s[0];
      NotContainsWithoutFirst(s[1..], sub);
    }
  }

  function DigitChar(d: nat): (c: char)
    requires d < 10
    ensures '0' <= c <= '9'
  {
    ('0' as int + d) as char
  }

  function DigitValue(c: char): (d: nat)
    requires '0' <= c <= '9'
    ensures d < 10 && DigitChar(d) == c
  {
    (c as int - '0' as int)
  }

  predicate AllDigits(s: string) {
    forall i :: 0 <= i < |s| ==> '0' <= s[i] <= '9'
  }

  /** `String(n)` for a non-negative integer: its decimal digits, no leading zero. */
  function NatToString(n: nat): (s: string)
    ensures |s| > 0 && AllDigits(s)
    ensures s[0] == '0' ==> n == 0
  {
    if n < 10 then [DigitChar(n)] else NatToString(n / 10) + [DigitChar(n % 10)]
  }

  /** `String(i)` for any integer. */
  function IntToString(i: int): (s: string)
    ensures |s| > 0
    ensures i < 0 <==> s[0] == '-'
  {
    if i < 0 then "-" + NatToString(-i) else NatToString(i)
  }

  /** The value of a string of decimal digits. */
  function DigitsValue(s: string): nat
    requires AllDigits(s)
  {
    if |s| == 0 then 0 else DigitsValue(s[..|s| - 1]) * 10 + DigitValue(s[|s| - 1])
  }

  /** Reading back the decimal digits of `n` gives `n`. */
  lemma {:induction false} DigitsValueOfNatToString(n: nat)
    ensures DigitsValue(NatToString(n)) == n
  {
    var s := NatToString(n);
    if n >= 10 {
      DigitsValueOfNatToString(n / 10);
      assert s[..|s| - 1] == NatToString(n / 10);
    }
  }

  /** `Number(s)` for a string, on the integer forms: white space is trimmed, the empty string
      is 0, an optional sign and decimal digits give their value; `None` is NaN. */
  function JsNumber(s: string): (r: Option<int>)
    ensures AllSpace(s) ==> r == Some(0)
    ensures |s| > 0 && AllDigits(s) ==> r == Some(DigitsValue(s))
    ensures |s| > 1 && s[0] == '-' && AllDigits(s[1..]) ==> r == Some(0 - DigitsValue(s[1..]))
    ensures |s| > 1 && s[0] == '+' && AllDigits(s[1..]) ==> r == Some(DigitsValue(s[1..]))
  {
    TrimEmptyIff(s);
    NumberForms(s);
    ParseTrimmed(Trim(s))
  }

  /** The values `Number` gives an optional sign followed by digits. */
  lemma NumberForms(s: string)
    ensures |s| > 0 && AllDigits(s) ==> ParseTrimmed(Trim(s)) == Some(DigitsValue(s))
    ensures |s| > 1 && s[0] == '-' && AllDigits(s[1..]) ==> ParseTrimmed(Trim(s)) == Some(0 - DigitsValue(s[1..]))
    ensures |s| > 1 && s[0] == '+' && AllDigits(s[1..]) ==> ParseTrimmed(Trim(s)) == Some(DigitsValue(s[1..]))
  {
    if |s| > 1 && (s[0] == '-' || s[0] == '+') && AllDigits(s[1..]) {
      SignedTrimmed(s);
    } else if |s| > 0 && AllDigits(s) {
      DigitsTrimmed(s);
    }
  }

  lemma SignedTrimmed(s: string)
    requires |s| > 1 && (s[0] == '-' || s[0] == '+') && AllDigits(s[1..])
    ensures Trim(s) == s
    ensures ParseTrimmed(s) == Some(if s[0] == '-' then 0 - DigitsValue(s[1..]) else DigitsValue(s[1..]) as int)
  {
    assert s[|s| - 1] == s[1..][|s| - 2];
    DigitNotSpace(s[|s| - 1]);
    TrimOfNonSpaceEnds(s);
  }

  lemma DigitsTrimmed(s: string)
    requires |s| > 0 && AllDigits(s)
    ensures Trim(s) == s
    ensures ParseTrimmed(s) == Some(DigitsValue(s))
  {
    DigitNotSpace(s[0]);
    DigitNotSpace(s[|s| - 1]);
    TrimOfNonSpaceEnds(s);
  }

  /** The value of trimmed text: empty is 0, then an optional sign and decimal digits. */
  function ParseTrimmed(t: string): Option<int> {
    if t == "" then Some(0)
    else if (t[0] == '-' || t[0] == '+') && |t| > 1 && AllDigits(t[1..]) then
      Some(if t[0] == '-' then 0 - DigitsValue(t[1..]) else DigitsValue(t[1..]) as int)
    else if AllDigits(t) then Some(DigitsValue(t))
    else None
  }

  /** `Number(String(i))` is `i`. */
  lemma JsNumberOfIntToString(i: int)
    ensures JsNumber(IntToString(i)) == Some(i)
  {
    if i < 0 {
      JsNumberOfNegative(i);
    } else {
      JsNumberOfNatToString(i);
    }
  }

  lemma JsNumberOfNatToString(n: nat)
    ensures JsNumber(IntToString(n)) == Some(n)
  {
    var s := IntToString(n);
    assert s == NatToString(n);
    DigitsValueOfNatToString(n);
  }

  lemma JsNumberOfNegative(i: int)
    requires i < 0
    ensures JsNumber(IntToString(i)) == Some(i)
  {
    var s := IntToString(i);
    var n: nat := -i;
    assert s == "-" + NatToString(n);
    assert s[1..] == NatToString(n);
    DigitsValueOfNatToString(n);
  }

  lemma DigitNotSpace(c: char)
    requires '0' <= c <= '9'
    ensures !IsJsSpace(c)
  {
  }

  /** `parts.join(sep)`. */
  function Join(parts: seq<string>, sep: char): string {
    if |parts| == 0 then ""
    else if |parts| == 1 then parts[0]
    else parts[0] + [sep] + Join(parts[1..], sep)
  }

  /** `s.split(sep)` for a one-character separator: never empty. */
  function Split(s: string, sep: char): (r: seq<string>)
    ensures |r| >= 1
  {
    if |s| == 0 then [""]
    else
      var rest := Split(s[1..], sep);
      if s[0] == sep then [""] + rest else [[s[0]] + rest[0]] + rest[1..]
  }

  lemma {:induction false} SplitPrefix(a: string, t: string, sep: char)
    requires sep !in a
    ensures Split(a + t, sep) == [a + Split(t, sep)[0]] + Split(t, sep)[1..]
  {
    if |a| > 0 {
      assert (a + t)[1..] == a[1..] + t;
      SplitPrefix(a[1..], t, sep);
      assert [a[0]] + (a[1..] + Split(t, sep)[0]) == a + Split(t, sep)[0];
    } else {
      assert a + t == t;
      assert a + Split(t, sep)[0] == Split(t, sep)[0];
      assert Split(t, sep) == [Split(t, sep)[0]] + Split(t, sep)[1..];
    }
  }

  /** Splitting a joined list gives the list back when no part contains the separator. */
  lemma {:induction false} SplitJoin(parts: seq<string>, sep: char)
    requires |parts| >= 1
    requires forall i :: 0 <= i < |parts| ==> sep !in parts[i]
    ensures Split(Join(parts, sep), sep) == parts
  {
    if |parts| == 1 {
      SplitPrefix(parts[0], "", sep);
      assert Split("", sep) == [""];
      assert parts[0] + "" == parts[0];
      assert Join(parts, sep) == parts[0];
      assert Split(parts[0], sep) == [parts[0]];
    } else {
      var tail := Join(parts[1..], sep);
      SplitJoin(parts[1..], sep);
      assert parts[0] + [sep] + tail == parts[0] + ([sep] + tail);
      SplitPrefix(parts[0], [sep] + tail, sep);
      assert ([sep] + tail)[1..] == tail;
      assert Split([sep] + tail, sep) == [""] + Split(tail, sep);
      assert parts[0] + "" == parts[0];
      assert parts == [parts[0]] + parts[1..];
    }
  }
}
