/** The two text conversions the attribute files rely on: the kernel's `kstrtoint` in base 10
    (used to read a number written to an attribute) and the `"%d"` conversion of `snprintf`
    (used to render one). Both work on the characters of a C string up to, and not including,
    its terminating NUL. */
module K90Text {
  import opened Wrappers

  /** Bounds of the C `int` that `kstrtoint` produces. */
  const INT_MIN: int := -0x8000_0000
  const INT_MAX: int := 0x7fff_ffff

  predicate IsInt32(n: int) {
    INT_MIN <= n <= INT_MAX
  }

  predicate IsDigit(c: char) {
    '0' <= c <= '9'
  }

  predicate AllDigits(s: string) {
    forall i :: 0 <= i < |s| ==> IsDigit(s[i])
  }

  function DigitValue(c: char): (d: nat)
    requires IsDigit(c)
    ensures d < 10
  {
    c as int - '0' as int
  }

  function DigitChar(d: nat): (c: char)
    requires d < 10
    ensures IsDigit(c) && DigitValue(c) == d
  {
    ('0' as int + d) as char
  }

  /** The number a string of decimal digits denotes, most significant digit first. */
  function DigitsValue(s: string): nat
    requires AllDigits(s)
  {
    if s == [] then 0 else DigitsValue(s[..|s| - 1]) * 10 + DigitValue(s[|s| - 1])
  }

  /** The decimal digits of `n`, without leading zeros. */
  function Digits(n: nat): (s: string)
    ensures |s| > 0 && AllDigits(s)
    ensures |s| > 1 ==> s[0] != '0'
  {
    if n < 10 then [DigitChar(n)] else Digits(n / 10) + [DigitChar(n % 10)]
  }

  lemma {:induction false} DigitsValueOfDigits(n: nat)
    ensures DigitsValue(Digits(n)) == n
  {
    if n >= 10 {
      var s := Digits(n);
      assert s[..|s| - 1] == Digits(n / 10);
      DigitsValueOfDigits(n / 10);
    }
  }

  /** `snprintf(buf, size, "%d", n)`: an optional minus sign followed by the digits of |n|. */
  function FormatInt(n: int): (s: string)
    ensures |s| > 0
    ensures s[0] == '-' <==> n < 0
    ensures AllDigits(if n < 0 then s[1..] else s)
  {
    if n < 0 then "-" + Digits(-n) else Digits(n)
  }

  /** `kstrtoint(s, 10, &res)`: `Some(res)` when it returns 0, `None` when it returns an error.
      Accepted is an optional `+` or `-` sign, one or more decimal digits and at most one
      trailing newline, denoting a value that fits in a C `int`; anything else (an empty
      string, a stray character, a second sign, a value out of range) is an error. */
  function ParseInt(s: string): (r: Option<int>)
    ensures r.Some? ==> IsInt32(r.value)
    ensures r.Some? ==> |s| > 0 && (IsDigit(s[0]) || s[0] == '-' || s[0] == '+')
  {
    var digits := WithoutNewline(WithoutSign(s));
    if digits == [] || !AllDigits(digits) then None
    else
      var v := if IsNegative(s) then -(DigitsValue(digits) as int) else DigitsValue(digits);
      if IsInt32(v) then Some(v) else None
  }

  predicate IsNegative(s: string) {
    |s| > 0 && s[0] == '-'
  }

  /** `s` without its leading sign character, if it has one. */
  function WithoutSign(s: string): string {
    if |s| > 0 && (s[0] == '-' || s[0] == '+') then s[1..] else s
  }

  /** `s` without its trailing newline, if it has one. */
  function WithoutNewline(s: string): string {
    if |s| > 0 && s[|s| - 1] == '\n' then s[..|s| - 1] else s
  }

  /** What `"%d"` renders, `kstrtoint` reads back, with or without the newline that the
      attribute files append. */
  lemma ParseFormat(n: int, newline: bool)
    requires IsInt32(n)
    ensures ParseInt(FormatInt(n) + (if newline then "\n" else "")) == Some(n)
  {
    var m: nat := if n < 0 then -n else n;
    var digits := Digits(m);
    DigitsValueOfDigits(m);
    var s := FormatInt(n) + (if newline then "\n" else "");
    assert IsNegative(s) == (n < 0);
    assert WithoutSign(s) == digits + (if newline then "\n" else "");
    assert WithoutNewline(WithoutSign(s)) == digits;
  }

  /** `ParseFormat` with the newline, stated for every `int` so that the show functions,
      which render a field of any value, can call it in their bodies. */
  lemma ParseFormatLine(n: int)
    ensures IsInt32(n) ==> ParseInt(FormatInt(n) + "\n") == Some(n)
  {
    if IsInt32(n) {
      ParseFormat(n, true);
    }
  }

  /** What `kstrtoint` accepts: an optional sign, one or more digits and an optional
      newline, nothing else; the digits denote the magnitude of the result, and the result
      is negative only after a minus sign. */
  lemma ParseSound(s: string)
    requires ParseInt(s).Some?
    ensures var v := ParseInt(s).value;
      var digits := WithoutNewline(WithoutSign(s));
      && digits != [] && AllDigits(digits)
      && DigitsValue(digits) == (if v < 0 then -v else v)
      && s in {digits, digits + "\n", "+" + digits, "+" + digits + "\n", "-" + digits, "-" + digits + "\n"}
      && (v < 0 ==> s[0] == '-')
      && (s[0] == '-' ==> v <= 0)
  {
    var unsigned := WithoutSign(s);
    var digits := WithoutNewline(unsigned);
    if |unsigned| > 0 && unsigned[|unsigned| - 1] == '\n' {
      assert unsigned == digits + "\n";
    } else {
      assert unsigned == digits;
    }
    if |s| > 0 && s[0] == '-' {
      assert s == "-" + unsigned;
      assert IsNegative(s);
      assert ParseInt(s).value == -(DigitsValue(digits) as int);
      assert s == "-" + digits || s == "-" + digits + "\n";
    } else if |s| > 0 && s[0] == '+' {
      assert s == "+" + unsigned;
      assert !IsNegative(s);
      assert ParseInt(s).value == DigitsValue(digits);
      assert s == "+" + digits || s == "+" + digits + "\n";
    } else {
      assert s == unsigned;
      assert !IsNegative(s);
      assert ParseInt(s).value == DigitsValue(digits);
    }
  }

  /** The converse of `ParseSound`: every text of that shape whose value fits in an `int`
      is accepted, leading zeros and a `+` sign included. */
  lemma ParseComplete(sign: string, digits: string, newline: bool)
    requires sign in {"", "+", "-"}
    requires digits != [] && AllDigits(digits)
    requires IsInt32(if sign == "-" then -(DigitsValue(digits) as int) else DigitsValue(digits))
    ensures ParseInt(sign + digits + (if newline then "\n" else ""))
      == Some(if sign == "-" then -(DigitsValue(digits) as int) else DigitsValue(digits))
  {
    var nl := if newline then "\n" else "";
    var s := sign + digits + nl;
    assert s[0] == if sign == "" then digits[0] else sign[0];
    assert IsNegative(s) == (sign == "-");
    assert WithoutSign(s) == digits + nl;
    assert WithoutNewline(WithoutSign(s)) == digits;
  }
}
