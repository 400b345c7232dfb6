/** White space and decimal numbers, as Rust's standard library treats them. */
module Strings {
  import opened Sequences
  import opened Limits

  /** The characters of Unicode's White_Space property. */
  predicate IsSpace(c: char) {
    var u := c as int;
    || 0x09 <= u <= 0x0D || u == 0x20 || u == 0x85 || u == 0xA0 || u == 0x1680
    || 0x2000 <= u <= 0x200A || u == 0x2028 || u == 0x2029 || u == 0x202F || u == 0x205F || u == 0x3000
  }

  function TrimLeft(s: string): (r: string)
    ensures r == "" || !IsSpace(r[0])
  {
    if s == "" || !IsSpace(s[0]) then s else TrimLeft(s[1..])
  }

  function TrimRight(s: string): string {
    if s == "" || !IsSpace(s[|s| - 1]) then s else TrimRight(s[..|s| - 1])
  }

  function Trim(s: string): string {
    TrimRight(TrimLeft(s))
  }

  predicate IsBlank(s: string) {
    forall i :: 0 <= i < |s| ==> IsSpace(s[i])
  }

  /** Neither end is white space. */
  predicate IsTrimmed(s: string) {
    s == "" || (!IsSpace(s[0]) && !IsSpace(s[|s| - 1]))
  }

  lemma {:induction false} TrimLeftOf(a: string, s: string)
    requires IsBlank(a)
    ensures TrimLeft(a + s) == TrimLeft(s)
    decreases |a|
  {
    if a == "" {
      assert a + s == s;
    } else {
      TrimLeftOf(a[1..], s);
      assert (a + s)[1..] == a[1..] + s;
    }
  }

  lemma {:induction false} TrimRightOf(s: string, b: string)
    requires IsBlank(b)
    ensures TrimRight(s + b) == TrimRight(s)
    decreases |b|
  {
    if b == "" {
      assert s + b == s;
    } else {
      TrimRightOf(s, b[..|b| - 1]);
      assert (s + b)[..|s + b| - 1] == s + b[..|b| - 1];
    }
  }

  lemma TrimLeftBlank(b: string)
    requires IsBlank(b)
    ensures TrimLeft(b) == ""
  {
    TrimLeftOf(b, "");
    assert b + "" == b;
  }

  /** Trimming takes off the white space at both ends and nothing else. */
  lemma TrimOf(a: string, t: string, b: string)
    requires IsBlank(a) && IsTrimmed(t) && IsBlank(b)
    ensures Trim(a + t + b) == t
  {
    assert a + t + b == a + (t + b);
    TrimLeftOf(a, t + b);
    if t == "" {
      assert t + b == b;
      TrimLeftBlank(b);
    } else {
      assert (t + b)[0] == t[0];
      TrimRightOf(t, b);
    }
  }

  predicate IsDigit(c: char) {
    '0' <= c <= '9'
  }

  function DigitOf(c: char): nat
    requires IsDigit(c)
  {
    c as int - '0' as int
  }

  function CharOf(d: nat): (c: char)
    requires d < 10
    ensures IsDigit(c) && DigitOf(c) == d
  {
    ('0' as int + d) as char
  }

  /** The value of a run of decimal digits, or nothing when some character is not one. */
  function DigitsValue(s: string): Option<nat> {
    if s == "" then Some(0)
    else
      match DigitsValue(s[..|s| - 1])
      case None => None
      case Some(v) => if IsDigit(s[|s| - 1]) then Some(10 * v + DigitOf(s[|s| - 1])) else None
  }

  /** `str::parse::<u32>`: digits after an optional plus sign, within 32 bits. */
  function ParseDigits(s: string): Option<nat> {
    var digits := if s != "" && s[0] == '+' then s[1..] else s;
    if digits == "" then None
    else
      match DigitsValue(digits)
      case None => None
      case Some(v) => if v <= MAX_U32 then Some(v) else None
  }

  function Format(n: nat): (s: string)
    ensures s != "" && forall i :: 0 <= i < |s| ==> IsDigit(s[i])
  {
    if n < 10 then [CharOf(n)] else Format(n / 10) + [CharOf(n % 10)]
  }

  lemma {:induction false} FormatValue(n: nat)
    ensures DigitsValue(Format(n)) == Some(n)
  {
    if n >= 10 {
      FormatValue(n / 10);
      assert Format(n)[..|Format(n)| - 1] == Format(n / 10);
    } else {
      assert Format(n)[..0] == "";
    }
  }

  /** Writing a number and reading it back, with or without a plus sign and with white space
      around it, gives the number. */
  lemma ParsePadded(a: string, plus: bool, n: nat, b: string)
    requires IsBlank(a) && IsBlank(b) && n <= MAX_U32
    ensures ParseDigits(Trim(a + ((if plus then "+" else "") + Format(n)) + b)) == Some(n)
  {
    var digits := Format(n);
    var s := (if plus then "+" else "") + digits;
    FormatValue(n);
    assert IsDigit(digits[0]) && IsDigit(digits[|digits| - 1]);
    assert s[|s| - 1] == digits[|digits| - 1] && s[0] == (if plus then '+' else digits[0]);
    TrimOf(a, s, b);
    assert plus ==> s[1..] == digits;
    assert !plus ==> s == digits;
  }

  lemma ParseFormat(n: nat)
    requires n <= MAX_U32
    ensures ParseDigits(Trim(Format(n))) == Some(n)
  {
    ParsePadded("", false, n, "");
    assert "" + ("" + Format(n)) + "" == Format(n);
  }

  lemma {:induction false} DigitsOnly(s: string)
    ensures DigitsValue(s).Some? <==> forall i :: 0 <= i < |s| ==> IsDigit(s[i])
  {
    if s != "" {
      DigitsOnly(s[..|s| - 1]);
      assert s[..|s| - 1] + [s[|s| - 1]] == s;
    }
  }

  /** Only digits, after at most one plus sign, read as a number. */
  lemma ParsesOnlyDigits(s: string)
    ensures ParseDigits(s).Some? ==>
              var digits := if s != "" && s[0] == '+' then s[1..] else s;
              digits != "" && forall i :: 0 <= i < |digits| ==> IsDigit(digits[i])
  {
    DigitsOnly(if s != "" && s[0] == '+' then s[1..] else s);
  }

  lemma DigitsNext(s: string, d: char)
    requires IsDigit(d) && DigitsValue(s).Some?
    ensures DigitsValue(s + [d]) == Some(10 * DigitsValue(s).value + DigitOf(d))
  {
    assert (s + [d])[..|s|] == s;
  }

  /** Digits count decimally, the first most. */
  lemma DecimalExample()
    ensures DigitsValue("16") == Some(16)
  {
    DigitsNext("", '1');
    DigitsNext("1", '6');
    assert "" + "1" == "1" && "1" + "6" == "16";
  }
}
