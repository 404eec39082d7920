/** `parseInt(value, 10)` of JavaScript on a string: leading white space is skipped,
    one `+` or `-` is taken as the sign, and the longest run of decimal digits that
    follows is the value; with no digit there the result is `NaN` (here `None`). An
    absent query value is `undefined`, which also gives `NaN`. */
module NumberParsing {
  import opened Wrappers

  /** White space and line terminators as `parseInt` skips them. */
  predicate IsJsSpace(c: char) {
    || c == '\t' || c == '\n' || c == '\U{000B}' || c == '\U{000C}' || c == '\r'
    || c == ' ' || c == '\U{00A0}' || c == '\U{1680}' || ('\U{2000}' <= c <= '\U{200A}')
    || c == '\U{2028}' || c == '\U{2029}' || c == '\U{202F}' || c == '\U{205F}'
    || c == '\U{3000}' || c == '\U{FEFF}'
  }

  predicate IsDigit(c: char) {
    '0' <= c <= '9'
  }

  function TrimStart(s: string): (t: string)
    ensures |t| <= |s| && t == s[|s| - |t|..]
    ensures |t| == 0 || !IsJsSpace(t[0])
    decreases |s|
  {
    if |s| > 0 && IsJsSpace(s[0]) then TrimStart(s[1..]) else s
  }

  /** The longest prefix of decimal digits. */
  function DigitPrefix(s: string): (d: string)
    ensures |d| <= |s| && d == s[..|d|]
    ensures forall k :: 0 <= k < |d| ==> IsDigit(d[k])
    ensures |d| == |s| || !IsDigit(s[|d|])
    decreases |s|
  {
    if |s| > 0 && IsDigit(s[0]) then [s[0]] + DigitPrefix(s[1..]) else ""
  }

  function DigitValue(c: char): nat
    requires IsDigit(c)
  {
    c as int - '0' as int
  }

  /** The value of a run of decimal digits, most significant first. */
  function DigitsValue(d: string): nat
    requires forall k :: 0 <= k < |d| ==> IsDigit(d[k])
    decreases |d|
  {
    if |d| == 0 then 0 else DigitsValue(d[..|d| - 1]) * 10 + DigitValue(d[|d| - 1])
  }

  /** The value of the longest run of digits at the start of `u`, if there is one. */
  function ParseDigits(u: string): Option<nat> {
    var digits := DigitPrefix(u);
    if |digits| == 0 then None else Some(DigitsValue(digits))
  }

  /** `parseInt` once the leading white space is gone: an optional sign, then digits. */
  function ParseSigned(t: string): Option<int> {
    if |t| > 0 && t[0] == '-' then
      match ParseDigits(t[1..])
      case None => None
      case Some(v) => Some(-(v as int))
    else if |t| > 0 && t[0] == '+' then
      match ParseDigits(t[1..])
      case None => None
      case Some(v) => Some(v as int)
    else
      match ParseDigits(t)
      case None => None
      case Some(v) => Some(v as int)
  }

  function ParseInt(s: string): Option<int> {
    ParseSigned(TrimStart(s))
  }

  // ---------------------------------------------------------------------------
  // Decimal text of an integer, the reference the parser is checked against.

  function Decimal(n: nat): (s: string)
    ensures |s| > 0 && forall k :: 0 <= k < |s| ==> IsDigit(s[k])
  {
    if n < 10 then ["0123456789"[n]] else Decimal(n / 10) + ["0123456789"[n % 10]]
  }

  function IntText(i: int): string {
    if i < 0 then "-" + Decimal(-i) else Decimal(i)
  }

  lemma {:induction false} DecimalValue(n: nat)
    ensures DigitsValue(Decimal(n)) == n
  {
    if n >= 10 {
      DecimalValue(n / 10);
      var s := Decimal(n);
      assert s[..|s| - 1] == Decimal(n / 10);
    }
  }

  lemma {:induction false} DigitPrefixIs(s: string, d: string)
    requires |d| <= |s| && s[..|d|] == d
    requires forall k :: 0 <= k < |d| ==> IsDigit(d[k])
    requires |d| == |s| || !IsDigit(s[|d|])
    ensures DigitPrefix(s) == d
    decreases |d|
  {
    if |d| > 0 {
      DigitPrefixIs(s[1..], d[1..]);
    }
  }

  /** The decimal text of any integer, followed by anything that does not start with
      a digit, parses back to that integer: `"3abc"` gives 3 and `"-2"` gives -2. */
  lemma {:induction false} ParseIntText(i: int, rest: string)
    requires |rest| == 0 || !IsDigit(rest[0])
    ensures ParseInt(IntText(i) + rest) == Some(i)
  {
    var n := if i < 0 then -i else i;
    var d := Decimal(n);
    DecimalValue(n);
    if i < 0 {
      assert IntText(i) + rest == "-" + (d + rest);
      ParseIntSigned(d, rest);
    } else {
      assert IntText(i) + rest == d + rest;
      ParseIntDigits(d, rest);
    }
  }

  /** Digits followed by text that does not start with a digit give their value. */
  lemma {:induction false} ParseDigitsOf(d: string, rest: string)
    requires |d| > 0 && forall k :: 0 <= k < |d| ==> IsDigit(d[k])
    requires |rest| == 0 || !IsDigit(rest[0])
    ensures ParseDigits(d + rest) == Some(DigitsValue(d))
  {
    var u := d + rest;
    assert u[..|d|] == d;
    assert |d| < |u| ==> u[|d|] == rest[0];
    DigitPrefixIs(u, d);
  }

  lemma {:induction false} TrimStartUnchanged(s: string)
    requires |s| > 0 && (IsDigit(s[0]) || s[0] == '-')
    ensures TrimStart(s) == s
  {
    assert !IsJsSpace(s[0]);
  }

  lemma {:induction false} ParseIntDigits(d: string, rest: string)
    requires |d| > 0 && forall k :: 0 <= k < |d| ==> IsDigit(d[k])
    requires |rest| == 0 || !IsDigit(rest[0])
    ensures ParseInt(d + rest) == Some(DigitsValue(d))
  {
    var s := d + rest;
    assert s[0] == d[0];
    TrimStartUnchanged(s);
    ParseDigitsOf(d, rest);
  }

  lemma {:induction false} ParseIntSigned(d: string, rest: string)
    requires |d| > 0 && forall k :: 0 <= k < |d| ==> IsDigit(d[k])
    requires |rest| == 0 || !IsDigit(rest[0])
    ensures ParseInt("-" + (d + rest)) == Some(-(DigitsValue(d) as int))
  {
    var s := "-" + (d + rest);
    assert s[0] == '-' && s[1..] == d + rest;
    TrimStartUnchanged(s);
    ParseDigitsOf(d, rest);
  }

  /** Text with no digit after the white space and the sign is `NaN`. */
  lemma {:induction false} ParseIntNoDigits(s: string)
    requires var t := TrimStart(s);
      var u := if |t| > 0 && (t[0] == '-' || t[0] == '+') then t[1..] else t;
      |u| == 0 || !IsDigit(u[0])
    ensures ParseInt(s).None?
  {
  }

  lemma {:induction false} ParseIntTrailingText()
    ensures ParseInt("3abc") == Some(3)
  {
    ExampleTexts('3');
    ParseIntDigits("3", "abc");
  }

  /** How the texts of the examples below are put together. */
  lemma {:induction false} ExampleTexts(c: char)
    ensures "-" + ([c] + "") == ['-', c]
    ensures [c] + "" == [c]
    ensures [c] + "abc" == [c, 'a', 'b', 'c']
  {
  }

  lemma {:induction false} ParseIntNegative()
    ensures ParseInt("-2") == Some(-2)
  {
    ExampleTexts('2');
    ParseIntSigned("2", "");
  }

  lemma {:induction false} ParseIntZero()
    ensures ParseInt("0") == Some(0)
  {
    ExampleTexts('0');
    ParseIntDigits("0", "");
  }

  lemma {:induction false} ParseIntNaN()
    ensures ParseInt("abc").None?
    ensures ParseInt("").None?
  {
    ParseIntNoDigits("abc");
  }
}
