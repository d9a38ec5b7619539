/** Decimal text of integers, as the counter store keeps them: how a number
    is written (`Long.toString`, and the store's own formatting, agree), how
    the store reads a counter back before incrementing it (only canonical
    64-bit decimals), how `Integer.parseInt` reads it, and the narrowing of a
    `long` to an `int`. Only ASCII digits are modelled. */
module Decimal {
  import opened Common

  const MinInt32: int := -0x8000_0000
  const MaxInt32: int := 0x7FFF_FFFF
  const MinInt64: int := -0x8000_0000_0000_0000
  const MaxInt64: int := 0x7FFF_FFFF_FFFF_FFFF

  predicate IsDigit(c: char) {
    '0' <= c <= '9'
  }

  predicate AllDigits(s: string) {
    forall i :: 0 <= i < |s| ==> IsDigit(s[i])
  }

  function DigitValue(c: char): nat
    requires IsDigit(c)
  {
    (c as int) - ('0' as int)
  }

  function DigitChar(d: nat): (c: char)
    requires d < 10
    ensures IsDigit(c) && DigitValue(c) == d
  {
    (('0' as int) + d) as char
  }

  /** The value of a string of decimal digits, most significant first. */
  function DigitsValue(s: string): nat
    requires AllDigits(s)
  {
    if s == [] then 0 else DigitsValue(s[..|s| - 1]) * 10 + DigitValue(s[|s| - 1])
  }

  /** The shortest decimal digits of `n`. */
  function NatToDigits(n: nat): (s: string)
    ensures s != [] && AllDigits(s)
    ensures s[0] == '0' ==> n == 0 && s == "0"
    ensures DigitsValue(s) == n
    decreases n
  {
    if n < 10 then [DigitChar(n)]
    else
      var front := NatToDigits(n / 10);
      var s := front + [DigitChar(n % 10)];
      assert s[..|s| - 1] == front;
      s
  }

  /** `Long.toString(n)`: a minus sign for negatives, no leading zeros. */
  function Format(n: int): (s: string)
    ensures s != [] && (s[0] == '-' <==> n < 0)
  {
    if n < 0 then "-" + NatToDigits(-n) else NatToDigits(n)
  }

  /** `Integer.parseInt(s)`: an optional sign, at least one digit, and a
      value within 32 bits; `None` is a `NumberFormatException`. */
  function JavaParseInt(s: string): Option<int> {
    if s == [] then None
    else
      var digits := if s[0] == '-' || s[0] == '+' then s[1..] else s;
      if digits == [] || !AllDigits(digits) then None
      else
        var v: int := if s[0] == '-' then -(DigitsValue(digits) as int) else DigitsValue(digits);
        if MinInt32 <= v <= MaxInt32 then Some(v) else None
  }

  /** How the store reads a counter before `INCR`: "0", or an optional minus
      sign and digits without a leading zero, within 64 bits. */
  function StoreParse(s: string): Option<int> {
    if s == "0" then Some(0)
    else
      var negative := s != [] && s[0] == '-';
      var digits := if negative then s[1..] else s;
      if digits == [] || !AllDigits(digits) || digits[0] == '0' then None
      else
        var v: int := if negative then -(DigitsValue(digits) as int) else DigitsValue(digits);
        if MinInt64 <= v <= MaxInt64 then Some(v) else None
  }

  /** `Long.intValue()`: keep the low 32 bits, two's complement. */
  function ToInt32(n: int): (r: int)
    ensures MinInt32 <= r <= MaxInt32
    ensures MinInt32 <= n <= MaxInt32 ==> r == n
  {
    (n - MinInt32) % 0x1_0000_0000 + MinInt32
  }

  /** Digits without a leading zero are the digits of their own value. */
  lemma {:induction false} DigitsCanonical(s: string)
    requires s != [] && AllDigits(s) && (s[0] == '0' ==> s == "0")
    ensures NatToDigits(DigitsValue(s)) == s
  {
    var n := DigitsValue(s);
    var front := s[..|s| - 1];
    if front == [] {
      assert s == [s[0]];
    } else {
      assert front[0] == s[0];
      DigitsCanonical(front);
      assert n / 10 == DigitsValue(front) && n % 10 == DigitValue(s[|s| - 1]);
      assert s == front + [s[|s| - 1]];
    }
  }

  lemma JavaParseFormat(n: int)
    requires MinInt32 <= n <= MaxInt32
    ensures JavaParseInt(Format(n)) == Some(n)
  {
    var s := Format(n);
    if n < 0 {
      var d := NatToDigits(-n);
      assert s == "-" + d && s[1..] == d;
    } else {
      assert s == NatToDigits(n);
    }
  }

  /** A number the store wrote reads back as itself. */
  lemma StoreParseFormat(n: int)
    requires MinInt64 <= n <= MaxInt64
    ensures StoreParse(Format(n)) == Some(n)
  {
    var s := Format(n);
    if n < 0 {
      var d := NatToDigits(-n);
      assert s == "-" + d && s[1..] == d;
      assert d[0] != '0' && s != "0";
    } else if n > 0 {
      var d := NatToDigits(n);
      assert s == d && d[0] != '0';
    }
  }

  /** The store accepts only what it could have written itself. */
  lemma StoreParseCanonical(s: string, n: int)
    requires StoreParse(s) == Some(n)
    ensures s == Format(n)
  {
    if s != "0" {
      var negative := s != [] && s[0] == '-';
      var digits := if negative then s[1..] else s;
      assert digits != [] && AllDigits(digits) && digits[0] != '0';
      DigitsCanonical(digits);
      if negative {
        assert n == -(DigitsValue(digits) as int) && DigitsValue(digits) != 0;
        assert s == "-" + digits;
      } else {
        assert n == DigitsValue(digits);
      }
    }
  }
}
