/** The C library's `atoi`, which the occupancy handler applies to a count
    that arrives as a JSON string, together with the decimal rendering it
    inverts. `atoi` skips leading white space, accepts one optional sign,
    then reads decimal digits up to the first character that is not one;
    a string with no digits there reads as 0. */
module CString {

  predicate IsSpace(c: char) {
    c == ' ' || c == '\t' || c == '\n' || c == '\U{000B}' || c == '\U{000C}' || c == '\r'
  }

  predicate IsDigit(c: char) {
    '0' <= c <= '9'
  }

  predicate AllDigits(s: string) {
    forall i :: 0 <= i < |s| ==> IsDigit(s[i])
  }

  predicate AllSpace(s: string) {
    forall i :: 0 <= i < |s| ==> IsSpace(s[i])
  }

  function DigitValue(c: char): (d: nat)
    requires IsDigit(c)
    ensures d < 10
  {
    c as int - '0' as int
  }

  function DigitChar(d: nat): (c: char)
    requires d < 10
    ensures IsDigit(c) && DigitValue(c) == d
  {
    ('0' as int + d) as char
  }

  /** What is left of `s` once its leading white space is skipped. */
  function SkipSpace(s: string): (t: string)
    ensures |t| <= |s| && t == s[|s| - |t|..]
    ensures AllSpace(s[..|s| - |t|])
    ensures t == [] || !IsSpace(t[0])
  {
    if s != [] && IsSpace(s[0]) then SkipSpace(s[1..]) else s
  }

  /** The longest prefix of `s` made of decimal digits. */
  function LeadingDigits(s: string): (d: string)
    ensures d <= s && AllDigits(d)
    ensures |d| == |s| || !IsDigit(s[|d|])
  {
    if s != [] && IsDigit(s[0]) then [s[0]] + LeadingDigits(s[1..]) else []
  }

  /** The number a digit string denotes, most significant digit first. */
  function DigitsValue(d: string): nat
    requires AllDigits(d)
  {
    if d == [] then 0 else 10 * DigitsValue(d[..|d| - 1]) + DigitValue(d[|d| - 1])
  }

  /** `atoi(s)` for a result that fits in an `int` (outside that range the C
      function's behaviour is undefined; callers rule that case out). */
  function Atoi(s: string): int {
    Signed(SkipSpace(s))
  }

  /** The optional sign and the digits that follow it. */
  function Signed(t: string): int {
    if t != [] && t[0] == '-' then -(Unsigned(t[1..]) as int)
    else if t != [] && t[0] == '+' then Unsigned(t[1..])
    else Unsigned(t)
  }

  /** The value of the digits `s` starts with; 0 when there are none. */
  function Unsigned(s: string): nat {
    DigitsValue(LeadingDigits(s))
  }

  /** The shortest decimal rendering of `n`, as a sender would put it in a
      JSON string. */
  function Decimal(n: nat): (s: string)
    ensures |s| > 0 && AllDigits(s)
    ensures s[0] == '0' ==> n == 0
  {
    if n < 10 then [DigitChar(n)] else Decimal(n / 10) + [DigitChar(n % 10)]
  }

  lemma {:induction false} DigitsValueOfDecimal(n: nat)
    ensures DigitsValue(Decimal(n)) == n
  {
    if n >= 10 {
      var s := Decimal(n / 10);
      assert Decimal(n)[..|Decimal(n)| - 1] == s;
      DigitsValueOfDecimal(n / 10);
    }
  }

  lemma {:induction false} LeadingDigitsStopAtNonDigit(d: string, rest: string)
    requires AllDigits(d)
    requires rest == [] || !IsDigit(rest[0])
    ensures LeadingDigits(d + rest) == d
  {
    if d != [] {
      assert (d + rest)[1..] == d[1..] + rest;
      LeadingDigitsStopAtNonDigit(d[1..], rest);
    } else {
      assert d + rest == rest;
    }
  }

  lemma {:induction false} SkipSpaceOfPadding(pad: string, t: string)
    requires AllSpace(pad)
    requires t == [] || !IsSpace(t[0])
    ensures SkipSpace(pad + t) == t
    ensures Atoi(pad + t) == Signed(t)
  {
    if pad != [] {
      assert (pad + t)[1..] == pad[1..] + t;
      SkipSpaceOfPadding(pad[1..], t);
    } else {
      assert pad + t == t;
    }
  }

  /** After the sign, `atoi` reads the digits up to the first non-digit. */
  lemma SignedOfDigits(c: char, digits: string, rest: string)
    requires c == '+' || c == '-'
    requires AllDigits(digits)
    requires rest == [] || !IsDigit(rest[0])
    ensures Signed([c] + digits + rest) == if c == '-' then -(DigitsValue(digits) as int) else DigitsValue(digits)
  {
    LeadingDigitsStopAtNonDigit(digits, rest);
    assert ([c] + digits + rest)[1..] == digits + rest;
  }

  /** An optional sign, digits and trailing text: what `atoi` reads once the
      white space is skipped. */
  lemma SignedReadsDigits(sign: string, digits: string, rest: string)
    requires sign == [] || sign == ['+'] || sign == ['-']
    requires AllDigits(digits) && digits != []
    requires rest == [] || !IsDigit(rest[0])
    ensures !IsSpace((sign + digits + rest)[0])
    ensures Signed(sign + digits + rest) == if sign == ['-'] then -(DigitsValue(digits) as int) else DigitsValue(digits)
  {
    if sign == [] {
      assert sign + digits + rest == digits + rest;
      LeadingDigitsStopAtNonDigit(digits, rest);
    } else {
      SignedOfDigits(sign[0], digits, rest);
    }
  }

  lemma AtoiReadsDigits(pad: string, sign: string, digits: string, rest: string)
    requires AllSpace(pad)
    requires sign == [] || sign == ['+'] || sign == ['-']
    requires AllDigits(digits) && digits != []
    requires rest == [] || !IsDigit(rest[0])
    ensures Atoi(pad + sign + digits + rest) == if sign == ['-'] then -(DigitsValue(digits) as int) else DigitsValue(digits)
  {
    var t := sign + digits + rest;
    assert pad + sign + digits + rest == pad + t;
    SignedReadsDigits(sign, digits, rest);
    SkipSpaceOfPadding(pad, t);
  }

  /** `atoi` reads back any decimal number, after white space and an optional
      sign, and ignores whatever trails the digits ("3 people" reads as 3). */
  lemma AtoiReadsDecimal(pad: string, sign: string, n: nat, rest: string)
    requires AllSpace(pad)
    requires sign == [] || sign == ['+'] || sign == ['-']
    requires rest == [] || !IsDigit(rest[0])
    ensures Atoi(pad + sign + Decimal(n) + rest) == if sign == ['-'] then -(n as int) else n
  {
    AtoiReadsDigits(pad, sign, Decimal(n), rest);
    DigitsValueOfDecimal(n);
  }

  /** White space followed by text that starts with neither a sign nor a
      digit, such as "abc", "  abc", "   " or "", reads as 0: `atoi`
      reports no error. */
  lemma AtoiOfNonNumeric(pad: string, rest: string)
    requires AllSpace(pad)
    requires rest == [] || !(IsSpace(rest[0]) || IsDigit(rest[0]) || rest[0] == '+' || rest[0] == '-')
    ensures Atoi(pad + rest) == 0
  {
    SkipSpaceOfPadding(pad, rest);
  }

  /** A sign with no digit after it, such as "-x", "+" or "  - 3", reads
      as 0. */
  lemma AtoiOfBareSign(pad: string, c: char, rest: string)
    requires AllSpace(pad)
    requires c == '+' || c == '-'
    requires rest == [] || !IsDigit(rest[0])
    ensures Atoi(pad + [c] + rest) == 0
  {
    assert pad + [c] + rest == pad + ([c] + rest);
    SkipSpaceOfPadding(pad, [c] + rest);
    assert ([c] + rest)[1..] == rest;
  }
}
