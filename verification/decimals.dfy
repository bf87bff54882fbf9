// Decimal numbers as the C++ library prints them and as the parsers of this repository read them.
module Decimals {

  predicate IsDigit(c: char) { '0' <= c <= '9' }

  function DigitOf(c: char): (d: int)
    requires IsDigit(c)
    ensures 0 <= d <= 9
  {
    c as int - '0' as int
  }

  function DigitChar(d: nat): (c: char)
    requires d < 10
    ensures IsDigit(c) && DigitOf(c) == d
  {
    ('0' as int + d) as char
  }

  predicate AllDigits(s: string) { forall k :: 0 <= k < |s| ==> IsDigit(s[k]) }

  /** std::to_string of a non-negative number. */
  function Dec(n: nat): (s: string)
    ensures s != "" && AllDigits(s)
  {
    if n < 10 then [DigitChar(n)] else Dec(n / 10) + [DigitChar(n % 10)]
  }

  /** std::to_string of an int. */
  function ToString(n: int): string {
    if n < 0 then "-" + Dec(-n) else Dec(n)
  }

  function Value(s: string): nat
    requires AllDigits(s)
  {
    if s == "" then 0 else Value(s[..|s| - 1]) * 10 + DigitOf(s[|s| - 1])
  }

  lemma {:induction false} ValueOfDec(n: nat)
    ensures Value(Dec(n)) == n
  {
    var s := Dec(n);
    if n >= 10 {
      ValueOfDec(n / 10);
      assert s[..|s| - 1] == Dec(n / 10) && s[|s| - 1] == DigitChar(n % 10);
    } else {
      assert s[..|s| - 1] == "";
    }
  }

  const TWO31: int := 0x8000_0000
  const TWO32: int := 0x1_0000_0000

  /** Two's complement of 32 bits. */
  function Wrap32(n: int): (r: int)
    ensures -TWO31 <= r < TWO31 && (-TWO31 <= n < TWO31 ==> r == n)
  {
    (n + TWO31) % TWO32 - TWO31
  }

  /** The digit loop over an int that wraps around. */
  function Wrapped(s: string): (r: int)
    requires AllDigits(s)
    ensures -TWO31 <= r < TWO31
  {
    if s == "" then 0 else Wrap32(Wrapped(s[..|s| - 1]) * 10 + DigitOf(s[|s| - 1]))
  }

  /** A number that fits is read exactly: no prefix of it overflows. */
  lemma {:induction false} WrappedIsValue(s: string)
    requires AllDigits(s) && Value(s) < TWO31
    ensures Wrapped(s) == Value(s)
  {
    if s != "" {
      WrappedIsValue(s[..|s| - 1]);
    }
  }

  function HexNibble(c: char): (r: int)
    ensures -1 <= r < 16
  {
    if '0' <= c <= '9' then c as int - '0' as int
    else if 'a' <= c <= 'f' then c as int - 'a' as int + 10
    else if 'A' <= c <= 'F' then c as int - 'A' as int + 10
    else -1
  }
}
