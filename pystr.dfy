/** The few Python `str` built-ins the core relies on: whitespace, `str.strip()`
    (used both for blank checks and on answers typed by the user) and `int()`
    applied to a string. */
module PyStr {
  import opened Wrappers

  /** The characters Python's `str.strip()` with no argument removes: those for which
      `str.isspace()` holds. */
  predicate IsSpace(c: char) {
    c == ' ' || c == '\t' || c == '\n' || c == '\r' || c == '\U{B}' || c == '\U{C}'
    || ('\U{1C}' <= c <= '\U{1F}') || c == '\U{85}' || c == '\U{A0}' || c == '\U{1680}'
    || ('\U{2000}' <= c <= '\U{200A}') || c == '\U{2028}' || c == '\U{2029}'
    || c == '\U{202F}' || c == '\U{205F}' || c == '\U{3000}'
  }

  /** `not s.strip()`: the string is empty or whitespace only. */
  predicate Blank(s: string) {
    forall i :: 0 <= i < |s| ==> IsSpace(s[i])
  }

  function TrimStart(s: string): string {
    if |s| > 0 && IsSpace(s[0]) then TrimStart(s[1..]) else s
  }

  function TrimEnd(s: string): string {
    if |s| > 0 && IsSpace(s[|s| - 1]) then TrimEnd(s[..|s| - 1]) else s
  }

  /** `s.strip()`. */
  function Strip(s: string): string {
    TrimEnd(TrimStart(s))
  }

  lemma {:induction false} TrimStartShape(s: string)
    ensures |TrimStart(s)| <= |s|
    ensures TrimStart(s) == s[|s| - |TrimStart(s)|..]
    ensures Blank(s[..|s| - |TrimStart(s)|])
    ensures |TrimStart(s)| > 0 ==> !IsSpace(TrimStart(s)[0])
  {
    if |s| > 0 && IsSpace(s[0]) {
      TrimStartShape(s[1..]);
      var k := |s| - |TrimStart(s)|;
      assert s[..k] == [s[0]] + s[1..][..k - 1];
    }
  }

  lemma {:induction false} TrimEndShape(s: string)
    ensures |TrimEnd(s)| <= |s|
    ensures TrimEnd(s) == s[..|TrimEnd(s)|]
    ensures Blank(s[|TrimEnd(s)|..])
    ensures |TrimEnd(s)| > 0 ==> !IsSpace(TrimEnd(s)[|TrimEnd(s)| - 1])
  {
    if |s| > 0 && IsSpace(s[|s| - 1]) {
      var init := s[..|s| - 1];
      TrimEndShape(init);
      var k := |TrimEnd(s)|;
      assert s[k..] == init[k..] + [s[|s| - 1]];
    }
  }

  /** `s.strip()` is the slice of `s` left after removing a whitespace-only prefix and a
      whitespace-only suffix, and it neither starts nor ends with whitespace. */
  lemma StripShape(s: string)
    ensures exists a, b :: 0 <= a <= b <= |s| && Strip(s) == s[a..b]
              && Blank(s[..a]) && Blank(s[b..])
    ensures |Strip(s)| > 0 ==> !IsSpace(Strip(s)[0]) && !IsSpace(Strip(s)[|Strip(s)| - 1])
  {
    var t := TrimStart(s);
    TrimStartShape(s);
    TrimEndShape(t);
    var a := |s| - |t|;
    var b := a + |TrimEnd(t)|;
    assert Strip(s) == s[a..b];
    assert s[b..] == t[|TrimEnd(t)|..];
  }

  /** Stripping leaves nothing exactly when the string is blank. */
  lemma StripEmptyIffBlank(s: string)
    ensures Strip(s) == "" <==> Blank(s)
  {
    StripShape(s);
    var a, b :| 0 <= a <= b <= |s| && Strip(s) == s[a..b] && Blank(s[..a]) && Blank(s[b..]);
    if Strip(s) == "" {
      assert a == b;
      forall i | 0 <= i < |s| ensures IsSpace(s[i]) {
        if i < a { assert s[..a][i] == s[i]; } else { assert s[b..][i - b] == s[i]; }
      }
    } else {
      assert s[a] == Strip(s)[0];
    }
  }

  /** A string that neither starts nor ends with whitespace is its own strip. */
  lemma {:induction false} StripTrimmed(s: string)
    requires |s| > 0 ==> !IsSpace(s[0]) && !IsSpace(s[|s| - 1])
    ensures Strip(s) == s
  {
  }

  predicate IsDigit(c: char) {
    '0' <= c <= '9'
  }

  function DigitValue(c: char): nat {
    if IsDigit(c) then (c as int) - ('0' as int) else 0
  }

  function DigitChar(d: nat): char
    requires d < 10
  {
    ('0' as int + d) as char
  }

  /** A run of decimal digits in which single underscores may separate digits,
      as Python's `int()` accepts (`"1_000"`). */
  predicate IsDigitGroup(s: string) {
    |s| > 0 && IsDigit(s[0]) && IsDigit(s[|s| - 1])
    && forall i :: 0 <= i < |s| ==> IsDigit(s[i]) || (s[i] == '_' && i + 1 < |s| && IsDigit(s[i + 1]))
  }

  /** The value of a digit group, underscores ignored. */
  function DigitsValue(s: string): nat {
    if |s| == 0 then 0
    else if s[|s| - 1] == '_' then DigitsValue(s[..|s| - 1])
    else DigitsValue(s[..|s| - 1]) * 10 + DigitValue(s[|s| - 1])
  }

  /** The number of digits in a string, underscores and other characters not counted. */
  function DigitCount(s: string): nat {
    if |s| == 0 then 0 else DigitCount(s[..|s| - 1]) + (if IsDigit(s[|s| - 1]) then 1 else 0)
  }

  /** Python's default limit on the number of digits `int()` converts from a decimal
      string (`sys.get_int_max_str_digits()`). */
  const MaxStrDigits: nat := 4300

  /** A digit group `int()` converts: one within the digit limit. */
  predicate Convertible(g: string) {
    IsDigitGroup(g) && DigitCount(g) <= MaxStrDigits
  }

  /** `int(s)` for a string: surrounding whitespace, an optional sign, then a digit group
      of at most `MaxStrDigits` digits; `None` where Python raises `ValueError`. */
  function PyInt(s: string): Option<int> {
    var t := Strip(s);
    if |t| > 0 && (t[0] == '+' || t[0] == '-') then
      if Convertible(t[1..]) then
        var magnitude: int := DigitsValue(t[1..]);
        Some(if t[0] == '-' then -magnitude else magnitude)
      else None
    else if Convertible(t) then Some(DigitsValue(t))
    else None
  }

  /** A string made of digits only counts every character. */
  lemma {:induction false} DigitCountAllDigits(s: string)
    requires forall i :: 0 <= i < |s| ==> IsDigit(s[i])
    ensures DigitCount(s) == |s|
  {
    if |s| > 0 {
      DigitCountAllDigits(s[..|s| - 1]);
    }
  }

  /** A digit group, signed or not, is its own strip, and its sign (if any) is its first
      character. */
  lemma SignedGroupTrimmed(sign: string, g: string)
    requires sign == "" || sign == "-" || sign == "+"
    requires IsDigitGroup(g)
    ensures Strip(sign + g) == sign + g != ""
    ensures sign == "" ==> sign + g == g && g[0] != '+' && g[0] != '-'
    ensures sign != "" ==> (sign + g)[0] == sign[0] && (sign + g)[1..] == g
  {
    var t := sign + g;
    assert !IsSpace(t[0]) && !IsSpace(t[|t| - 1]);
    StripTrimmed(t);
    assert sign != "" ==> t[1..] == g;
  }

  /** `int()` rejects a digit group, signed or not, that has more than `MaxStrDigits`
      digits. */
  lemma PyIntTooLong(sign: string, g: string)
    requires sign == "" || sign == "-" || sign == "+"
    requires IsDigitGroup(g) && DigitCount(g) > MaxStrDigits
    ensures Strip(sign + g) == sign + g != ""
    ensures PyInt(sign + g) == None
  {
    SignedGroupTrimmed(sign, g);
  }

  /** `str(n)` for a non-negative integer. */
  function NatDecimal(n: nat): (r: string)
    ensures |r| > 0
  {
    if n < 10 then [DigitChar(n)] else NatDecimal(n / 10) + [DigitChar(n % 10)]
  }

  /** `str(n)`. */
  function Decimal(n: int): string {
    if n < 0 then "-" + NatDecimal(-n) else NatDecimal(n)
  }

  lemma {:induction false} NatDecimalDigits(n: nat)
    ensures forall i :: 0 <= i < |NatDecimal(n)| ==> IsDigit(NatDecimal(n)[i])
    ensures DigitsValue(NatDecimal(n)) == n
  {
    if n >= 10 {
      NatDecimalDigits(n / 10);
      var s := NatDecimal(n);
      assert s[..|s| - 1] == NatDecimal(n / 10);
    }
  }

  /** `str(n)` has no surrounding whitespace. */
  lemma DecimalTrimmed(n: int)
    ensures Decimal(n) != "" && Strip(Decimal(n)) == Decimal(n)
  {
    var m := if n < 0 then -n else n;
    NatDecimalDigits(m);
    var s := Decimal(n);
    assert !IsSpace(s[0]) && !IsSpace(s[|s| - 1]);
    StripTrimmed(s);
  }

  /** The number of digits of `str(n)`, the sign not counted. */
  function DecimalDigits(n: int): nat {
    |NatDecimal(if n < 0 then -n else n)|
  }

  /** `int()` of a convertible digit group, with no sign or a minus sign, is its value
      with that sign. */
  lemma PyIntSigned(sign: string, g: string)
    requires sign == "" || sign == "-"
    requires Convertible(g)
    ensures PyInt(sign + g) == Some(if sign == "-" then -(DigitsValue(g) as int) else DigitsValue(g) as int)
  {
    SignedGroupTrimmed(sign, g);
  }

  /** `int(str(n)) == n` whenever `str(n)` is within the digit limit. */
  lemma PyIntDecimal(n: int)
    requires DecimalDigits(n) <= MaxStrDigits
    ensures PyInt(Decimal(n)) == Some(n)
  {
    var m := if n < 0 then -n else n;
    NatDecimalDigits(m);
    var d := NatDecimal(m);
    DigitCountAllDigits(d);
    assert Convertible(d);
    if n < 0 {
      PyIntSigned("-", d);
    } else {
      PyIntSigned("", d);
      assert "" + d == d;
    }
  }
}
