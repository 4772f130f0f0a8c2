/** The few pieces of JavaScript value semantics the bot relies on:
    truthiness of optional strings, how numbers are written into text,
    parseInt on a decimal string, and String.prototype.trim. */
module JsValues {
  import opened Wrappers

  /** `if (x)` on an optional string: undefined/null and "" are falsy. */
  predicate Truthy(s: Option<string>)
  {
    s.Some? && |s.value| > 0
  }

  predicate IsDigit(c: char)
  {
    '0' <= c <= '9'
  }

  predicate AllDigits(s: string)
  {
    forall i :: 0 <= i < |s| ==> IsDigit(s[i])
  }

  function DigitValue(c: char): (d: nat)
    requires IsDigit(c)
    ensures d < 10
  {
    c as int - '0' as int
  }

  function DigitChar(d: nat): (c: char)
    requires d < 10
    ensures IsDigit(c) && DigitValue(c) == d
  {
    ('0' as int + d) as char
  }

  /** Decimal text of a non-negative integer, as `${n}` writes it. */
  function NatToString(n: nat): (s: string)
    ensures |s| > 0 && AllDigits(s)
    ensures |s| > 1 ==> s[0] != '0'
    decreases n
  {
    if n < 10 then [DigitChar(n)] else NatToString(n / 10) + [DigitChar(n % 10)]
  }

  /** Value of a string of decimal digits, most significant first. */
  function DigitsValue(s: string): nat
    requires AllDigits(s)
  {
    if s == [] then 0 else DigitsValue(s[..|s| - 1]) * 10 + DigitValue(s[|s| - 1])
  }

  /** The longest prefix of `s` made of decimal digits. */
  function LeadingDigits(s: string): (p: string)
    ensures p <= s && AllDigits(p)
    ensures |p| < |s| ==> !IsDigit(s[|p|])
  {
    if s == [] || !IsDigit(s[0]) then [] else [s[0]] + LeadingDigits(s[1..])
  }

  /** Digits followed by a non-digit: the leading digits are exactly those. */
  lemma {:induction false} LeadingDigitsOfDigitsThen(p: string, rest: string)
    requires AllDigits(p) && rest != [] && !IsDigit(rest[0])
    ensures LeadingDigits(p + rest) == p
  {
    if p != [] {
      LeadingDigitsOfDigitsThen(p[1..], rest);
      assert (p + rest)[1..] == p[1..] + rest;
    }
  }

  /** A JavaScript number as it can arise here: a non-negative integer or NaN. */
  datatype Number = Num(n: nat) | NaN

  /** `+` on numbers: NaN absorbs. */
  function Add(a: Number, b: Number): Number
  {
    if a.Num? && b.Num? then Num(a.n + b.n) else NaN
  }

  /** parseInt(s) on a string of the shape the server sends: the value of
      the leading decimal digits, or NaN when there are none. */
  function ParseInt(s: string): (r: Number)
    ensures r.NaN? <==> (s == [] || !IsDigit(s[0]))
  {
    var p := LeadingDigits(s);
    if p == [] then NaN else Num(DigitsValue(p))
  }

  /** `${x}` of a number. */
  function NumberText(x: Number): string
  {
    match x
    case Num(n) => NatToString(n)
    case NaN => "NaN"
  }

  lemma {:induction false} LeadingDigitsOfDigits(s: string)
    requires AllDigits(s)
    ensures LeadingDigits(s) == s
  {
    if s != [] {
      LeadingDigitsOfDigits(s[1..]);
    }
  }

  lemma {:induction false} DigitsValueOfNatToString(n: nat)
    ensures DigitsValue(NatToString(n)) == n
    decreases n
  {
    var s := NatToString(n);
    if n >= 10 {
      DigitsValueOfNatToString(n / 10);
      assert s[..|s| - 1] == NatToString(n / 10);
    }
  }

  /** parseInt reads back exactly the number that `${n}` wrote. */
  lemma ParseIntOfNatToString(n: nat)
    ensures ParseInt(NatToString(n)) == Num(n)
  {
    LeadingDigitsOfDigits(NatToString(n));
    DigitsValueOfNatToString(n);
  }

  /** NatToString is injective: distinct counts never print alike. */
  lemma NatToStringInjective(m: nat, n: nat)
    requires NatToString(m) == NatToString(n)
    ensures m == n
  {
    DigitsValueOfNatToString(m);
    DigitsValueOfNatToString(n);
  }

  /** The characters String.prototype.trim removes: WhiteSpace and
      LineTerminator of the ECMAScript grammar. */
  predicate IsJsWhitespace(c: char)
  {
    || c == '\t' || c == '\n' || c == '\U{B}' || c == '\U{C}' || c == '\r'
    || c == ' ' || c == '\U{A0}' || c == '\U{1680}'
    || ('\U{2000}' <= c <= '\U{200A}')
    || c == '\U{2028}' || c == '\U{2029}' || c == '\U{202F}' || c == '\U{205F}'
    || c == '\U{3000}' || c == '\U{FEFF}'
  }

  predicate AllWhitespace(s: string)
  {
    forall i :: 0 <= i < |s| ==> IsJsWhitespace(s[i])
  }

  /** Number of whitespace characters at the front of `s`. */
  function LeadingSpace(s: string): (k: nat)
    ensures k <= |s| && AllWhitespace(s[..k])
    ensures k < |s| ==> !IsJsWhitespace(s[k])
  {
    if s != [] && IsJsWhitespace(s[0]) then
      var k := LeadingSpace(s[1..]);
      assert s[..k + 1] == [s[0]] + s[1..][..k];
      k + 1
    else 0
  }

  /** Number of whitespace characters at the back of `s`. */
  function TrailingSpace(s: string): (k: nat)
    ensures k <= |s|
    ensures forall m :: |s| - k <= m < |s| ==> IsJsWhitespace(s[m])
    ensures k < |s| ==> !IsJsWhitespace(s[|s| - k - 1])
  {
    if s != [] && IsJsWhitespace(s[|s| - 1]) then
      TrailingSpace(s[..|s| - 1]) + 1
    else 0
  }

  /** String.prototype.trim: `s` without its leading and trailing whitespace.
      The result is a slice of `s` that cuts off only whitespace and neither
      starts nor ends with whitespace. */
  function Trim(s: string): (r: string)
    ensures r == [] || (!IsJsWhitespace(r[0]) && !IsJsWhitespace(r[|r| - 1]))
    ensures exists i, j {:trigger s[i..j]} :: 0 <= i <= j <= |s| && r == s[i..j]
                                             && AllWhitespace(s[..i]) && AllWhitespace(s[j..])
  {
    var i := LeadingSpace(s);
    var t := s[i..];
    var b := TrailingSpace(t);
    var j := i + |t| - b;
    assert t[..|t| - b] == s[i..j];
    TrailingAllWhitespace(s, i, t, b, j);
    assert 0 <= i <= j <= |s| && AllWhitespace(s[..i]);
    s[i..j]
  }

  lemma TrailingAllWhitespace(s: string, i: nat, t: string, b: nat, j: nat)
    requires i <= |s| && t == s[i..] && b <= |t| && j == i + |t| - b
    requires forall m :: |t| - b <= m < |t| ==> IsJsWhitespace(t[m])
    ensures AllWhitespace(s[j..])
  {
    forall m | 0 <= m < |s[j..]| ensures IsJsWhitespace(s[j..][m]) {
      assert s[j..][m] == t[|t| - b + m];
    }
  }

  /** `s.trim() === ''` exactly when every character of `s` is whitespace. */
  lemma TrimEmptyIffAllWhitespace(s: string)
    ensures Trim(s) == [] <==> AllWhitespace(s)
  {
    var i := LeadingSpace(s);
    var t := s[i..];
    var b := TrailingSpace(t);
    if AllWhitespace(s) {
      assert i == |s|;
    } else {
      assert i < |s|;
      assert !IsJsWhitespace(t[0]);
    }
  }
}
