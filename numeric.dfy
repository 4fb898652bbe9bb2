/**
 * Rust's fixed-width integers used by the translator (`i32` segment indices,
 * `u32` addresses) and their decimal text: `format!("{}", n)` and
 * `str::parse::<i32>()`.
 */
module Numeric {
  import opened Options

  newtype i32 = x: int | -0x8000_0000 <= x < 0x8000_0000
  newtype u32 = x: int | 0 <= x < 0x1_0000_0000

  predicate IsDigit(c: char) { '0' <= c <= '9' }

  predicate AllDigits(s: string) { forall i :: 0 <= i < |s| ==> IsDigit(s[i]) }

  function Digit(d: nat): (c: char)
    requires d < 10
    ensures IsDigit(c)
  {
    ('0' as int + d) as char
  }

  function DigitValue(c: char): (d: nat)
    requires IsDigit(c)
    ensures d < 10 && Digit(d) == c
  {
    c as int - '0' as int
  }

  /** Decimal text of a natural number, without leading zeros. */
  function Decimal(n: nat): (s: string)
    ensures 1 <= |s| && AllDigits(s)
    ensures (|s| == 1) == (n < 10)
    decreases n
  {
    if n < 10 then [Digit(n)] else Decimal(n / 10) + [Digit(n % 10)]
  }

  /** The number a string of digits denotes (the digit loop of Rust's integer parser). */
  function Value(s: string): nat
    requires AllDigits(s)
  {
    if s == [] then 0 else Value(s[..|s| - 1]) * 10 + DigitValue(s[|s| - 1])
  }

  lemma {:induction false} ValueOfDecimal(n: nat)
    ensures Value(Decimal(n)) == n
    decreases n
  {
    if n >= 10 {
      var s := Decimal(n);
      assert s[..|s| - 1] == Decimal(n / 10);
      ValueOfDecimal(n / 10);
    }
  }

  /** Distinct numbers have distinct decimal texts. */
  lemma DecimalInjective(m: nat, n: nat)
    ensures Decimal(m) == Decimal(n) ==> m == n
  {
    ValueOfDecimal(m);
    ValueOfDecimal(n);
  }

  /** `format!("{}", x)` for a signed integer: a minus sign before the magnitude. */
  function SignedDecimal(x: int): (s: string)
    ensures 1 <= |s|
    ensures x < 0 <==> s[0] == '-'
  {
    if x < 0 then "-" + Decimal(-x) else Decimal(x)
  }

  /**
   * `str::parse::<i32>()`: an optional `+` or `-` sign followed by one or more
   * decimal digits whose value fits in 32 bits; anything else is an error.
   */
  function ParseI32(s: string): (r: Option<i32>)
    ensures r.Some? ==> 1 <= |s| && (s[0] == '-' || s[0] == '+' || IsDigit(s[0])) && AllDigits(s[1..])
    ensures r.Some? && (s[0] == '-' || s[0] == '+') ==> 2 <= |s|
    ensures r.Some? && r.value < 0 ==> s[0] == '-'
  {
    if s == [] then None
    else
      var negative := s[0] == '-';
      var digits := if s[0] == '-' || s[0] == '+' then s[1..] else s;
      if digits == [] || !AllDigits(digits) then None
      else
        var v := if negative then -(Value(digits) as int) else Value(digits) as int;
        if -0x8000_0000 <= v < 0x8000_0000 then Some(v as i32) else None
  }

  /**
   * The texts `str::parse::<i32>()` accepts: no sign, `+` or `-`, then one or
   * more digits; the result is the signed value when it fits in 32 bits and
   * an error otherwise.
   */
  lemma ParseI32Accepts(sign: string, digits: string)
    requires sign == "" || sign == "+" || sign == "-"
    requires digits != [] && AllDigits(digits)
    ensures var v := if sign == "-" then -(Value(digits) as int) else Value(digits) as int;
      ParseI32(sign + digits) == if -0x8000_0000 <= v < 0x8000_0000 then Some(v as i32) else None
  {
    var s := sign + digits;
    if sign == "" {
      assert s == digits;
      assert IsDigit(s[0]);
    } else {
      assert s[0] == sign[0] && s[1..] == digits;
    }
  }

  /** Digits with no sign parse to their value. */
  lemma ParseUnsignedDecimal(n: nat)
    requires n < 0x8000_0000
    ensures ParseI32(Decimal(n)) == Some(n as i32)
  {
    ParseI32Accepts("", Decimal(n));
    assert "" + Decimal(n) == Decimal(n);
    ValueOfDecimal(n);
  }

  /** A minus sign followed by digits parses to the negated value. */
  lemma ParseNegativeDecimal(m: nat)
    requires 1 <= m <= 0x8000_0000
    ensures ParseI32("-" + Decimal(m)) == Some((-(m as int)) as i32)
  {
    ParseI32Accepts("-", Decimal(m));
    ValueOfDecimal(m);
  }

  /** Parsing the decimal text of an i32 gives that i32 back. */
  lemma ParseSignedDecimal(x: i32)
    ensures ParseI32(SignedDecimal(x as int)) == Some(x)
  {
    if x < 0 {
      ParseNegativeDecimal(-(x as int));
    } else {
      ParseUnsignedDecimal(x as int);
    }
  }

  /** Strings with no sign and no digits are rejected. */
  lemma ParseRejectsNonDigits(s: string)
    requires 1 <= |s| && forall i :: 0 <= i < |s| ==> !IsDigit(s[i])
    ensures ParseI32(s).None?
  {
    if s[0] == '-' || s[0] == '+' {
      if 2 <= |s| {
        assert s[1..][0] == s[1];
      }
    }
  }
}
