/** Decimal rendering of integers, as Rust's `Display` for `u64` and `i64`
    prints them (`format!("{}", n)`, `n.to_string()`): no leading zeros, a
    leading '-' for negative numbers. Parsing is its inverse. */
module Decimal {
  import opened Serenity

  predicate IsDigit(c: char)
  {
    '0' <= c <= '9'
  }

  /** A character that can occur in a rendered signed integer. */
  predicate IsNumeral(c: char)
  {
    IsDigit(c) || c == '-'
  }

  predicate AllDigits(s: string)
  {
    forall i :: 0 <= i < |s| ==> IsDigit(s[i])
  }

  function DigitChar(d: nat): (c: char)
    requires d < 10
    ensures IsDigit(c) && DigitValue(c) == d
  {
    ('0' as int + d) as char
  }

  function DigitValue(c: char): nat
    requires IsDigit(c)
  {
    c as int - '0' as int
  }

  /** The decimal digits of `n`, most significant first. */
  function NatToString(n: nat): (s: string)
    ensures 1 <= |s| && AllDigits(s)
    ensures s[0] == '0' ==> n == 0 && s == "0"
  {
    if n < 10 then [DigitChar(n)] else NatToString(n / 10) + [DigitChar(n % 10)]
  }

  /** Reads a string of decimal digits, most significant first. */
  function ParseNat(s: string): nat
    requires AllDigits(s)
  {
    if s == [] then 0 else ParseNat(s[..|s| - 1]) * 10 + DigitValue(s[|s| - 1])
  }

  function IntToString(i: int): (s: string)
  {
    if i < 0 then "-" + NatToString(-i) else NatToString(i)
  }

  /** Reads an optionally negative decimal numeral; `None` unless `s` is one. */
  function ParseInt(s: string): Option<int>
  {
    if 2 <= |s| && s[0] == '-' && AllDigits(s[1..]) then Some(-(ParseNat(s[1..]) as int))
    else if 1 <= |s| && AllDigits(s) then Some(ParseNat(s))
    else None
  }

  lemma {:induction false} ParseNatToString(n: nat)
    ensures ParseNat(NatToString(n)) == n
  {
    if n >= 10 {
      var s := NatToString(n);
      assert s[..|s| - 1] == NatToString(n / 10);
      ParseNatToString(n / 10);
    }
  }

  /** Rendering followed by parsing gives back the same integer. */
  lemma ParseIntToString(i: int)
    ensures ParseInt(IntToString(i)) == Some(i)
  {
    var s := IntToString(i);
    if i < 0 {
      assert s[1..] == NatToString(-i);
      ParseNatToString(-i);
    } else {
      ParseNatToString(i);
    }
  }

  /** Every character of a rendered integer is a numeral character. */
  lemma IntToStringNumerals(i: int)
    ensures 1 <= |IntToString(i)|
    ensures forall k :: 0 <= k < |IntToString(i)| ==> IsNumeral(IntToString(i)[k])
  {
  }

  /** Rendering is injective: distinct integers give distinct strings. */
  lemma IntToStringInjective(i: int, j: int)
    requires IntToString(i) == IntToString(j)
    ensures i == j
  {
    ParseIntToString(i);
    ParseIntToString(j);
  }

  /** Length of the longest prefix of `s` made of numeral characters. */
  function LeadingNumerals(s: string): (n: nat)
    ensures n <= |s|
    ensures forall k :: 0 <= k < n ==> IsNumeral(s[k])
    ensures n < |s| ==> !IsNumeral(s[n])
  {
    if s == [] || !IsNumeral(s[0]) then 0 else 1 + LeadingNumerals(s[1..])
  }

  /** Length of the longest suffix of `s` made of digits. */
  function TrailingDigits(s: string): (n: nat)
    ensures n <= |s|
    ensures AllDigits(s[|s| - n..])
    ensures n < |s| ==> !IsDigit(s[|s| - n - 1])
  {
    if s == [] || !IsDigit(s[|s| - 1]) then 0 else 1 + TrailingDigits(s[..|s| - 1])
  }

  /** The numeral run of a numeral string stops at the first non-numeral. */
  lemma {:induction false} LeadingNumeralsOfConcat(a: string, b: string)
    requires forall k :: 0 <= k < |a| ==> IsNumeral(a[k])
    requires 1 <= |b| && !IsNumeral(b[0])
    ensures LeadingNumerals(a + b) == |a|
  {
    if a == [] {
      assert a + b == b;
    } else {
      assert (a + b)[0] == a[0];
      assert (a + b)[1..] == a[1..] + b;
      LeadingNumeralsOfConcat(a[1..], b);
    }
  }

  /** The digit run at the end of `a + b`, where `b` is all digits and `a`
      ends in a non-digit, is exactly `b`. */
  lemma {:induction false} TrailingDigitsOfConcat(a: string, b: string)
    requires 1 <= |a| && !IsDigit(a[|a| - 1])
    requires AllDigits(b)
    ensures TrailingDigits(a + b) == |b|
  {
    if b == [] {
      assert a + b == a;
    } else {
      var s := a + b;
      assert s[|s| - 1] == b[|b| - 1];
      assert s[..|s| - 1] == a + b[..|b| - 1];
      TrailingDigitsOfConcat(a, b[..|b| - 1]);
    }
  }
}
